/** The credentials file: reading it, writing it, and the commands that rewrite it. */
module Credentials {
  import opened FileLines
  import opened Options
  import opened OrderedDict
  import opened PasswordHash
  import opened Text

  const HEADER := "# Proxy user credentials (managed by manage_users.py)"
  const FORMAT := "# Format: username:pbkdf2$iterations$salt$hash"

  // ----- reading -----

  function LoadLine(users: Dict, raw: string): Dict {
    var line := Strip(raw);
    if line == "" || line[0] == '#' then users
    else
      match FindChar(line, ':')
      case None => users
      case Some(i) => Set(users, Strip(line[..i]), Strip(line[i + 1..]))
  }

  function LoadFrom(users: Dict, lines: seq<string>): Dict
    decreases |lines|
  {
    if lines == [] then users else LoadFrom(LoadLine(users, lines[0]), lines[1..])
  }

  /** A file that is not there holds no users. */
  function Load(file: Option<string>): Dict {
    match file
    case None => []
    case Some(text) => LoadFrom([], Lines(text))
  }

  method LoadUsers(file: Option<string>) returns (users: Dict)
    ensures users == Load(file)
  {
    hide Lines, Strip, FindChar, Set;
    users := [];
    if file.None? {
      return;
    }
    var lines := Lines(file.value);
    var i := 0;
    while i < |lines|
      invariant i <= |lines| && LoadFrom(users, lines[i..]) == LoadFrom([], lines)
    {
      var line := Strip(lines[i]);
      if line != "" && line[0] != '#' {
        var colon := FindChar(line, ':');
        if colon.Some? {
          users := Set(users, Strip(line[..colon.value]), Strip(line[colon.value + 1..]));
        }
      }
      i := i + 1;
    }
  }

  // ----- writing -----

  /** Text order, character by character. */
  predicate Before(a: string, b: string) {
    a == "" || (b != "" && (a[0] < b[0] || (a[0] == b[0] && Before(a[1..], b[1..]))))
  }

  function InsertUser(user: (string, string), users: Dict): Dict {
    if users == [] || Before(user.0, users[0].0) then [user] + users
    else [users[0]] + InsertUser(user, users[1..])
  }

  function SortUsers(users: Dict): Dict {
    if users == [] then [] else InsertUser(users[0], SortUsers(users[1..]))
  }

  function Print(users: Dict): string {
    if users == [] then "" else users[0].0 + ":" + users[0].1 + "\n" + Print(users[1..])
  }

  function Save(users: Dict): string {
    HEADER + "\n" + (FORMAT + "\n" + Print(SortUsers(users)))
  }

  method SaveUsers(users: Dict) returns (text: string)
    ensures text == Save(users)
  {
    hide SortUsers;
    text := HEADER + "\n";
    text := text + FORMAT + "\n";
    var sorted := SortUsers(users);
    ghost var whole := Print(sorted);
    assert text + whole == Save(users);
    var i := 0;
    while i < |sorted|
      invariant i <= |sorted| && text + Print(sorted[i..]) == Save(users)
    {
      ghost var rest := sorted[i..];
      assert rest[0] == sorted[i] && rest[1..] == sorted[i + 1..];
      ghost var written := text;
      text := text + (sorted[i].0 + ":" + sorted[i].1 + "\n");
      assert text + Print(rest[1..]) == written + Print(rest);
      i := i + 1;
    }
  }

  // ----- sorting changes no user -----

  predicate Ascending(users: Dict) {
    |users| <= 1 || (Before(users[0].0, users[1].0) && Ascending(users[1..]))
  }

  lemma {:induction false} BeforeIsTotal(a: string, b: string)
    ensures Before(a, b) || Before(b, a)
  {
    if a != "" && b != "" && a[0] == b[0] {
      BeforeIsTotal(a[1..], b[1..]);
    }
  }

  lemma {:induction false} InsertUserKeeps(user: (string, string), users: Dict, key: string)
    requires DistinctKeys(users) && !OrderedDict.Has(users, user.0)
    ensures Get(InsertUser(user, users), key) == if key == user.0 then Some(user.1) else Get(users, key)
    ensures DistinctKeys(InsertUser(user, users))
    ensures multiset(InsertUser(user, users)) == multiset(users) + multiset{user}
  {
    var r := InsertUser(user, users);
    if users == [] || Before(user.0, users[0].0) {
      assert r[1..] == users;
    } else {
      assert r[1..] == InsertUser(user, users[1..]);
      InsertUserKeeps(user, users[1..], key);
      InsertUserKeeps(user, users[1..], users[0].0);
      assert users == [users[0]] + users[1..];
    }
  }

  lemma {:induction false} InsertUserAscends(user: (string, string), users: Dict)
    requires Ascending(users)
    ensures Ascending(InsertUser(user, users))
  {
    var r := InsertUser(user, users);
    if users == [] || Before(user.0, users[0].0) {
      assert r[1..] == users;
    } else {
      assert r[1..] == InsertUser(user, users[1..]);
      BeforeIsTotal(user.0, users[0].0);
      InsertUserAscends(user, users[1..]);
    }
  }

  /** The file lists every user once, in name order, with the same credential. */
  lemma {:induction false} SortUsersKeeps(users: Dict, key: string)
    requires DistinctKeys(users)
    ensures var r := SortUsers(users);
            Get(r, key) == Get(users, key) && DistinctKeys(r) && Ascending(r) && multiset(r) == multiset(users)
  {
    if users != [] {
      var rest := users[1..];
      SortUsersKeeps(rest, key);
      SortUsersKeeps(rest, users[0].0);
      InsertUserKeeps(users[0], SortUsers(rest), key);
      InsertUserAscends(users[0], SortUsers(rest));
      assert users == [users[0]] + rest;
    }
  }

  // ----- what a file can hold -----

  predicate GoodName(name: string) {
    Trimmed(name) && OnOneLine(name) && ':' !in name && (name != "" ==> name[0] != '#')
  }

  predicate GoodCredential(credential: string) {
    Trimmed(credential) && OnOneLine(credential)
  }

  predicate Good(user: (string, string)) {
    GoodName(user.0) && GoodCredential(user.1)
  }

  ghost predicate AllGood(users: Dict) {
    forall user :: user in users ==> Good(user)
  }

  /** The same users with the same credentials, in whatever order. */
  ghost predicate SameUsers(a: Dict, b: Dict) {
    forall name :: Get(a, name) == Get(b, name)
  }

  lemma {:induction false} FindColon(name: string, rest: string)
    requires ':' !in name
    ensures FindChar(name + ":" + rest, ':') == Some(|name|)
  {
    var s := name + ":" + rest;
    assert s[|name|] == ':';
    assert forall j :: 0 <= j < |name| ==> s[j] == name[j] && name[j] in name;
  }

  lemma LoadPrintedLine(users: Dict, user: (string, string))
    requires Good(user)
    ensures LoadLine(users, user.0 + ":" + user.1) == Set(users, user.0, user.1)
  {
    hide LStrip, RStrip;
    var (name, credential) := user;
    var line := name + ":" + credential;
    assert line[0] == if name != "" then name[0] else ':';
    assert line[|line| - 1] == if credential != "" then credential[|credential| - 1] else ':';
    assert !IsBlank(':', TextBlanks);
    StripTrimmed(line, TextBlanks);
    StripTrimmed(name, TextBlanks);
    StripTrimmed(credential, TextBlanks);
    FindColon(name, credential);
    assert line[..|name|] == name && line[|name| + 1..] == credential;
  }

  /** A line as people write it: blanks count nowhere, and only the first colon counts. */
  lemma WrittenLineReads(users: Dict, left: string, name: string, pad: string, pad': string, credential: string,
                         right: string)
    requires Blank(left) && Blank(pad) && Blank(pad') && Blank(right)
    requires name != "" && Trimmed(name) && ':' !in name && name[0] != '#' && credential != "" && Trimmed(credential)
    ensures LoadLine(users, left + name + pad + ":" + pad' + credential + right) == Set(users, name, credential)
  {
    hide Strip, FindChar, Set;
    var line := name + pad + ":" + (pad' + credential);
    assert left + name + pad + ":" + pad' + credential + right == left + line + right;
    assert line[0] == name[0] && line[|line| - 1] == credential[|credential| - 1];
    StripBetween(left, line, right);
    assert ':' !in name + pad;
    FindColon(name + pad, pad' + credential);
    assert line[..|name + pad|] == name + pad && line[|name + pad| + 1..] == pad' + credential;
    assert "" + name + pad == name + pad && pad' + credential + "" == pad' + credential;
    StripBetween("", name, pad);
    StripBetween(pad', credential, "");
  }

  /** Empty lines, comments and lines without a colon say nothing. */
  lemma OtherLinesSayNothing(users: Dict, left: string, line: string)
    requires Blank(left) && Trimmed(line) && (line == "" || line[0] == '#' || ':' !in line)
    ensures LoadLine(users, left + line) == users
  {
    hide Strip;
    assert left + line + "" == left + line;
    StripBetween(left, line, "");
  }

  lemma {:induction false} SetAbsent(users: Dict, key: string, value: string)
    requires !OrderedDict.Has(users, key)
    ensures Set(users, key, value) == users + [(key, value)]
  {
    if users != [] {
      SetAbsent(users[1..], key, value);
      assert users + [(key, value)] == [users[0]] + (users[1..] + [(key, value)]);
    }
  }

  lemma LoadFirstLine(before: Dict, line: string, rest: string)
    requires OnOneLine(line)
    ensures LoadFrom(before, Lines(line + "\n" + rest)) == LoadFrom(LoadLine(before, line), Lines(rest))
  {
    hide LoadLine, Lines, OnOneLine;
    LinesOfPrinted(line, rest);
    var tail := Lines(rest);
    assert ([line] + tail)[0] == line && ([line] + tail)[1..] == tail;
  }

  lemma GoodLine(user: (string, string))
    requires Good(user)
    ensures OnOneLine(user.0 + ":" + user.1)
  {
  }

  lemma LoadFirstUser(before: Dict, user: (string, string), rest: string)
    requires Good(user) && !OrderedDict.Has(before, user.0)
    ensures LoadFrom(before, Lines(user.0 + ":" + user.1 + "\n" + rest)) == LoadFrom(before + [user], Lines(rest))
  {
    hide LoadLine, Lines, OnOneLine, Good, Set, LoadFrom, Get;
    GoodLine(user);
    LoadFirstLine(before, user.0 + ":" + user.1, rest);
    LoadPrintedLine(before, user);
    SetAbsent(before, user.0, user.1);
  }

  lemma RestIsOther(users: Dict, other: (string, string))
    requires DistinctKeys(users) && users != [] && other in users[1..]
    ensures other in users && other.0 != users[0].0
  {
    var rest := users[1..];
    var i: nat :| i < |rest| && rest[i] == other;
    assert users[i + 1] == other;
    GetPair(rest, i);
  }

  lemma OthersStayAbsent(before: Dict, users: Dict)
    requires DistinctKeys(users) && users != []
    requires forall user :: user in users ==> !OrderedDict.Has(before, user.0)
    ensures forall other :: other in users[1..] ==> !OrderedDict.Has(before + [users[0]], other.0)
  {
    hide Get, Set;
    var user := users[0];
    assert user in users;
    SetAbsent(before, user.0, user.1);
    forall other | other in users[1..] ensures !OrderedDict.Has(before + [user], other.0) {
      RestIsOther(users, other);
      GetSet(before, user.0, user.1, other.0);
    }
  }

  lemma NothingPrinted(users: Dict)
    ensures LoadFrom(users, Lines("")) == users
  {
    assert [""][1..] == [];
  }

  /** Printed users read back, after whatever was read before them. */
  lemma {:induction false} PrintReadsBack(before: Dict, users: Dict)
    requires AllGood(users) && DistinctKeys(users)
    requires forall user :: user in users ==> !OrderedDict.Has(before, user.0)
    ensures LoadFrom(before, Lines(Print(users))) == before + users
    decreases |users|
  {
    hide Good, LoadLine, LoadFrom, Set, OrderedDict.Has, Lines;
    if users == [] {
      NothingPrinted(before);
      assert before + users == before;
    } else {
      var user, rest := users[0], users[1..];
      assert user in users && forall other :: other in rest ==> other in users;
      LoadFirstUser(before, user, Print(rest));
      OthersStayAbsent(before, users);
      PrintReadsBack(before + [user], rest);
      assert before + [user] + rest == before + users;
    }
  }

  lemma CommentLine(line: string, rest: string)
    requires OnOneLine(line) && Trimmed(line) && line != "" && line[0] == '#'
    ensures LoadFrom([], Lines(line + "\n" + rest)) == LoadFrom([], Lines(rest))
  {
    StripTrimmed(line, TextBlanks);
    LoadFirstLine([], line, rest);
  }

  lemma TwoCommentLines(first: string, second: string, rest: string)
    requires OnOneLine(first) && Trimmed(first) && first != "" && first[0] == '#'
    requires OnOneLine(second) && Trimmed(second) && second != "" && second[0] == '#'
    ensures LoadFrom([], Lines(first + "\n" + (second + "\n" + rest))) == LoadFrom([], Lines(rest))
  {
    hide Lines, LoadFrom;
    CommentLine(first, second + "\n" + rest);
    CommentLine(second, rest);
  }

  lemma HeaderStart()
    ensures forall i :: 0 <= i < 25 ==> HEADER[i] >= ' '
    ensures HEADER[0] == '#'
  {
    var start := "# Proxy user credentials ";
    assert forall i :: 0 <= i < |start| ==> start[i] >= ' ';
    assert forall i :: 0 <= i < |start| ==> start[i] == HEADER[i];
  }

  lemma HeaderIsComment()
    ensures OnOneLine(HEADER) && Trimmed(HEADER) && HEADER != "" && HEADER[0] == '#'
  {
    HeaderStart();
    assert forall i :: 25 <= i < |HEADER| ==> HEADER[i] >= ' ';
  }

  lemma FormatStart()
    ensures forall i :: 0 <= i < 21 ==> FORMAT[i] >= ' '
    ensures FORMAT[0] == '#'
  {
    var start := "# Format: username:pb";
    assert forall i :: 0 <= i < |start| ==> start[i] >= ' ';
    assert forall i :: 0 <= i < |start| ==> start[i] == FORMAT[i];
  }

  lemma FormatIsComment()
    ensures OnOneLine(FORMAT) && Trimmed(FORMAT) && FORMAT != "" && FORMAT[0] == '#'
  {
    FormatStart();
    assert forall i :: 21 <= i < |FORMAT| ==> FORMAT[i] >= ' ';
  }

  /** Reading a saved file gives the users in name order. */
  lemma SaveReadsBack(users: Dict)
    requires AllGood(users) && DistinctKeys(users)
    ensures Load(Some(Save(users))) == SortUsers(users)
  {
    hide Lines, LoadFrom, SortUsers, Print, Good;
    var sorted := SortUsers(users);
    SortUsersKeeps(users, "");
    forall user | user in sorted ensures Good(user) {
      assert user in multiset(sorted) && user in multiset(users);
    }
    HeaderIsComment();
    FormatIsComment();
    TwoCommentLines(HEADER, FORMAT, Print(sorted));
    PrintReadsBack([], sorted);
    assert [] + sorted == sorted;
  }

  // ----- whatever a file holds is good -----

  lemma StripGood(s: string)
    requires OnOneLine(s)
    ensures GoodCredential(Strip(s))
  {
    var i, j := StripIsPiece(s, TextBlanks);
  }

  /** The part of a line before its colon gives a good name. */
  lemma NameIsGood(line: string, colon: nat)
    requires Trimmed(line) && OnOneLine(line) && line != "" && line[0] != '#'
    requires FindChar(line, ':') == Some(colon)
    ensures GoodName(Strip(line[..colon]))
  {
    hide IsBlank, FindChar;
    var part := line[..colon];
    StripGood(part);
    var j := RStripIsPrefix(LStrip(part, TextBlanks), TextBlanks);
    if colon > 0 {
      assert part[0] == line[0];
      assert LStrip(part, TextBlanks) == part;
    }
    assert forall c :: c in Strip(part) ==> c in part;
  }

  lemma {:induction false} SetGood(users: Dict, user: (string, string))
    requires AllGood(users) && Good(user)
    ensures AllGood(Set(users, user.0, user.1))
  {
    hide Good;
    if users != [] {
      assert users[0] in users;
      assert AllGood(users[1..]) by {
        assert forall u :: u in users[1..] ==> u in users;
      }
      SetGood(users[1..], user);
    }
  }

  lemma GoodMeans(credential: string)
    requires GoodCredential(credential)
    ensures Trimmed(credential) && OnOneLine(credential)
  {
  }

  lemma LoadLineGood(users: Dict, raw: string)
    requires AllGood(users) && DistinctKeys(users) && OnOneLine(raw)
    ensures AllGood(LoadLine(users, raw)) && DistinctKeys(LoadLine(users, raw))
  {
    hide Strip, FindChar, GoodName, GoodCredential, Set, DistinctKeys;
    var line := Strip(raw);
    StripGood(raw);
    assert Trimmed(line) && OnOneLine(line) by {
      GoodMeans(line);
    }
    if line != "" && line[0] != '#' && FindChar(line, ':').Some? {
      var i := FindChar(line, ':').value;
      NameIsGood(line, i);
      assert line[i + 1..] == line[i + 1..|line|];
      StripGood(line[i + 1..]);
      SetGood(users, (Strip(line[..i]), Strip(line[i + 1..])));
      SetDistinct(users, Strip(line[..i]), Strip(line[i + 1..]));
    }
  }

  lemma {:induction false} LoadFromGood(users: Dict, lines: seq<string>)
    requires AllGood(users) && DistinctKeys(users)
    requires forall i :: 0 <= i < |lines| ==> OnOneLine(lines[i])
    ensures AllGood(LoadFrom(users, lines)) && DistinctKeys(LoadFrom(users, lines))
    decreases |lines|
  {
    hide LoadLine, Good;
    if lines != [] {
      LoadLineGood(users, lines[0]);
      LoadFromGood(LoadLine(users, lines[0]), lines[1..]);
    }
  }

  /** Every file, however written, reads as good users, each name once. */
  lemma LoadIsGood(file: Option<string>)
    ensures AllGood(Load(file)) && DistinctKeys(Load(file))
  {
    hide Good, LoadLine, OnOneLine;
    if file.Some? {
      LinesAreLines(file.value);
      LoadFromGood([], Lines(file.value));
    }
  }

  /** The law of the file: saving and reading gives the same users exactly when every name and credential is
      trimmed and on one line, and no name holds a colon or starts as a comment. */
  lemma SaveLoadIff(users: Dict)
    requires DistinctKeys(users)
    ensures SameUsers(Load(Some(Save(users))), users) <==> AllGood(users)
  {
    hide Good, Load, Save, SortUsers, Get;
    var loaded := Load(Some(Save(users)));
    if AllGood(users) {
      SaveReadsBack(users);
      forall name ensures Get(loaded, name) == Get(users, name) {
        SortUsersKeeps(users, name);
      }
    } else if SameUsers(loaded, users) {
      LoadIsGood(Some(Save(users)));
      forall user | user in users ensures Good(user) {
        var i: nat :| i < |users| && users[i] == user;
        GetPair(users, i);
        var j := GetIsPair(loaded, user.0);
        assert loaded[j] == user;
      }
      assert false;
    }
  }

  // ----- the commands -----

  function AfterAdd(kdf: Kdf, salt: seq<Byte>, file: Option<string>, username: string, password: string): string {
    Save(Set(Load(file), username, HashPassword(kdf, salt, password)))
  }

  method CmdAdd(kdf: Kdf, salt: seq<Byte>, file: Option<string>, username: string, password: string)
    returns (after: string, updated: bool)
    ensures after == AfterAdd(kdf, salt, file, username, password)
    ensures updated == OrderedDict.Has(Load(file), username)
  {
    var users := LoadUsers(file);
    var hashed := HashPassword(kdf, salt, password);
    updated := OrderedDict.Has(users, username);
    users := Set(users, username, hashed);
    after := SaveUsers(users);
  }

  method CmdRemove(file: Option<string>, username: string) returns (after: Option<string>, found: bool)
    ensures found == OrderedDict.Has(Load(file), username)
    ensures after == if found then Some(Save(OrderedDict.Remove(Load(file), username))) else file
  {
    var users := LoadUsers(file);
    found := OrderedDict.Has(users, username);
    if !found {
      return file, false;
    }
    users := OrderedDict.Remove(users, username);
    var text := SaveUsers(users);
    after := Some(text);
  }

  /** One credential after migration. */
  function Renewed(kdf: Kdf, salt: seq<Byte>, credential: string): string {
    if IsHashed(credential) then credential else HashPassword(kdf, salt, credential)
  }

  /** All users after migration; `salts(i)` is the salt drawn for the i-th of them. */
  function Migrated(kdf: Kdf, salts: nat -> seq<Byte>, users: Dict): (r: Dict)
    ensures |r| == |users|
    ensures forall i :: 0 <= i < |users| ==> r[i] == (users[i].0, Renewed(kdf, salts(i), users[i].1))
  {
    seq(|users|, i requires 0 <= i < |users| => (users[i].0, Renewed(kdf, salts(i), users[i].1)))
  }

  function Legacy(users: Dict): nat {
    if users == [] then 0
    else (if IsHashed(users[|users| - 1].1) then 0 else 1) + Legacy(users[..|users| - 1])
  }

  function AfterMigrate(kdf: Kdf, salts: nat -> seq<Byte>, file: Option<string>): Option<string> {
    if Legacy(Load(file)) > 0 then Some(Save(Migrated(kdf, salts, Load(file)))) else file
  }

  lemma {:induction false} SetInPlace(users: Dict, i: nat, value: string)
    requires DistinctKeys(users) && i < |users|
    ensures Set(users, users[i].0, value) == users[i := (users[i].0, value)]
  {
    if i > 0 {
      GetPair(users[1..], i - 1);
      assert users[1..][i - 1] == users[i];
      SetInPlace(users[1..], i - 1, value);
    }
  }

  /** Hashes every legacy credential in place. */
  method MigrateUsers(kdf: Kdf, salts: nat -> seq<Byte>, start: Dict) returns (users: Dict, migrated: nat)
    requires DistinctKeys(start)
    ensures users == Migrated(kdf, salts, start)
    ensures migrated == Legacy(start)
  {
    hide IsHashed, HashPassword, DistinctKeys, Set;
    users := start;
    migrated := 0;
    var i := 0;
    while i < |users|
      invariant i <= |users| == |start| && DistinctKeys(users)
      invariant forall k :: 0 <= k < i ==> users[k] == Migrated(kdf, salts, start)[k]
      invariant forall k :: i <= k < |start| ==> users[k] == start[k]
      invariant migrated == Legacy(start[..i])
    {
      var (username, credential) := users[i];
      assert start[..i + 1][..i] == start[..i];
      if !IsHashed(credential) {
        var hashed := HashPassword(kdf, salts(i), credential);
        SetInPlace(users, i, hashed);
        SetDistinct(users, username, hashed);
        users := Set(users, username, hashed);
        migrated := migrated + 1;
      }
      i := i + 1;
    }
    assert start[..i] == start;
  }

  method CmdMigrate(kdf: Kdf, salts: nat -> seq<Byte>, file: Option<string>) returns (after: Option<string>, migrated: nat)
    ensures after == AfterMigrate(kdf, salts, file)
    ensures migrated == Legacy(Load(file))
  {
    var users := LoadUsers(file);
    LoadIsGood(file);
    users, migrated := MigrateUsers(kdf, salts, users);
    if migrated > 0 {
      var text := SaveUsers(users);
      after := Some(text);
    } else {
      after := file;
    }
  }
}
