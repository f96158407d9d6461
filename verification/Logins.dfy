/** Who can log in, before and after each command rewrites the credentials file. */
module Logins {
  import opened Credentials
  import opened Options
  import opened OrderedDict
  import opened PasswordHash
  import Text

  /** A login against the users of a file. */
  function Login(kdf: Kdf, users: Dict, name: string, plain: string): Check {
    match Get(users, name)
    case None => Verdict(false)
    case Some(stored) => VerifyPassword(kdf, plain, stored)
  }

  lemma SameUsersLogIn(kdf: Kdf, a: Dict, b: Dict, name: string, plain: string)
    requires SameUsers(a, b)
    ensures Login(kdf, a, name, plain) == Login(kdf, b, name, plain)
  {
    assert Get(a, name) == Get(b, name);
  }

  /** The check of a request's Proxy-Authorization header; `decode` is what base64 and UTF-8 decoding yield. */
  function CheckAuth(kdf: Kdf, users: Dict, headers: Dict, decode: string -> Option<string>): Check {
    match Get(headers, "proxy-authorization")
    case None => Verdict(false)
    case Some(header) =>
      if !Text.StartsWith(Text.Lower(header), "basic ") then Verdict(false)
      else
        var words := Text.Fields(header, 1);
        if |words| < 2 then Verdict(false)
        else
          match decode(words[1])
          case None => Verdict(false)
          case Some(text) =>
            match Text.FindChar(text, ':')
            case None => Verdict(false)
            case Some(i) => Login(kdf, users, text[..i], text[i + 1..])
  }

  /** A Proxy-Authorization header of the Basic scheme names a user and a password. */
  ghost predicate Carries(headers: Dict, decode: string -> Option<string>, name: string, plain: string) {
    && Get(headers, "proxy-authorization").Some?
    && var header := Get(headers, "proxy-authorization").value;
    && Text.StartsWith(Text.Lower(header), "basic ") && |Text.Fields(header, 1)| == 2
    && ':' !in name && decode(Text.Fields(header, 1)[1]) == Some(name + ":" + plain)
  }

  lemma TwoFields(s: string)
    ensures |Text.Fields(s, 1)| <= 2
  {
  }

  lemma WhoCarries(kdf: Kdf, users: Dict, headers: Dict, decode: string -> Option<string>)
    returns (name: string, plain: string)
    requires CheckAuth(kdf, users, headers, decode) == Verdict(true)
    ensures Carries(headers, decode, name, plain) && Login(kdf, users, name, plain) == Verdict(true)
  {
    hide Text.Fields, Text.Lower, Text.StartsWith, Login, Get;
    var header := Get(headers, "proxy-authorization").value;
    var words := Text.Fields(header, 1);
    TwoFields(header);
    var text := decode(words[1]).value;
    var i := Text.FindChar(text, ':').value;
    name, plain := text[..i], text[i + 1..];
    assert text == name + ":" + plain;
  }

  /** What the check asks is whether that user logs in with that password. */
  lemma CarriedIsChecked(kdf: Kdf, users: Dict, headers: Dict, decode: string -> Option<string>, name: string, plain: string)
    requires Carries(headers, decode, name, plain)
    ensures CheckAuth(kdf, users, headers, decode) == Login(kdf, users, name, plain)
  {
    hide Text.Fields, Text.Lower, Text.StartsWith, Login, Get;
    FindColon(name, plain);
    var text := name + ":" + plain;
    assert text[..|name|] == name && text[|name| + 1..] == plain;
  }

  /** A request passes the check if and only if it carries the name of a user and a password that passes for it. */
  lemma AuthPassesIff(kdf: Kdf, users: Dict, headers: Dict, decode: string -> Option<string>)
    ensures CheckAuth(kdf, users, headers, decode) == Verdict(true)
       <==> exists name, plain :: Carries(headers, decode, name, plain) && Get(users, name).Some?
                                  && VerifyPassword(kdf, plain, Get(users, name).value) == Verdict(true)
  {
    hide CheckAuth, Carries, VerifyPassword, Get;
    if CheckAuth(kdf, users, headers, decode) == Verdict(true) {
      var name, plain := WhoCarries(kdf, users, headers, decode);
    }
    if name, plain :| Carries(headers, decode, name, plain) && Get(users, name).Some?
                      && VerifyPassword(kdf, plain, Get(users, name).value) == Verdict(true) {
      CarriedIsChecked(kdf, users, headers, decode, name, plain);
    }
  }

  lemma BasicWords(payload: string)
    requires payload != "" && Text.Solid(payload)
    ensures Text.Fields("Basic " + payload, 1) == ["Basic", payload]
    ensures Text.StartsWith(Text.Lower("Basic " + payload), "basic ")
  {
    assert "Basic " + payload == "Basic" + (" " + payload);
    Text.FieldsStep("Basic", " " + payload, 1, Text.TextBlanks);
    Text.FieldsPad(payload, 0, Text.TextBlanks);
    assert payload[0] in payload;
    var lower := Text.Lower("Basic " + payload);
    assert lower[0] == 'b' && lower[1] == 'a' && lower[2] == 's' && lower[3] == 'i' && lower[4] == 'c' && lower[5] == ' ';
    assert lower[..6] == "basic ";
  }

  /** A client that sends its name and password the standard way is checked against just those, whatever colons
      the password has. */
  lemma BasicHeaderLogsIn(kdf: Kdf, users: Dict, headers: Dict, decode: string -> Option<string>, payload: string,
                          name: string, password: string)
    requires payload != "" && Text.Solid(payload) && Get(headers, "proxy-authorization") == Some("Basic " + payload)
    requires ':' !in name && decode(payload) == Some(name + ":" + password)
    ensures CheckAuth(kdf, users, headers, decode) == Login(kdf, users, name, password)
  {
    hide Text.Fields, Text.Lower, Text.StartsWith, Login, Get, CheckAuth;
    BasicWords(payload);
    CarriedIsChecked(kdf, users, headers, decode, name, password);
  }

  lemma HashedBegins(stored: string)
    ensures IsHashed(stored) == Text.StartsWith(stored, "pbkdf2$")
  {
    assert PREFIX + "$" == "pbkdf2$";
  }

  /** Until it is migrated, a plaintext credential in the file is its user's password, and the only one. */
  lemma LegacyUserLogsIn(kdf: Kdf, users: Dict, user: (string, string), plain: string)
    requires AllGood(users) && DistinctKeys(users) && user in users
    requires !IsHashed(user.1) && IsAscii(user.1) && IsAscii(plain)
    ensures Login(kdf, Load(Some(Save(users))), user.0, plain) == Verdict(plain == user.1)
  {
    hide Load, Save, AllGood, DistinctKeys, SameUsers, IsHashed, Get;
    SaveLoadIff(users);
    SameUsersLogIn(kdf, Load(Some(Save(users))), users, user.0, plain);
    var i: nat :| i < |users| && users[i] == user;
    GetPair(users, i);
    assert IsHashed(user.1) == Text.StartsWith(user.1, "pbkdf2$") by {
      HashedBegins(user.1);
    }
    LegacyVerifiesIff(kdf, user.1, plain);
  }

  // ----- add -----

  lemma HashIsGood(kdf: Kdf, salt: seq<Byte>, plain: string)
    ensures GoodCredential(HashPassword(kdf, salt, plain))
  {
    hide Printed;
    var hashed := HashPassword(kdf, salt, plain);
    PrintedIsSolid(salt, kdf(plain, salt, ITERATIONS, KEY_LENGTH));
    assert hashed != "" ==> hashed[0] in hashed && hashed[|hashed| - 1] in hashed;
  }

  lemma {:induction false} SetContains(users: Dict, name: string, credential: string)
    ensures (name, credential) in Set(users, name, credential)
  {
    if users != [] && users[0].0 != name {
      SetContains(users[1..], name, credential);
    }
  }

  /** An added user is what the next start reads, next to everybody else, exactly when the name can stand in
      the file. */
  lemma AddReadsBackIff(kdf: Kdf, salt: seq<Byte>, file: Option<string>, username: string, password: string)
    ensures SameUsers(Load(Some(AfterAdd(kdf, salt, file, username, password))),
                      Set(Load(file), username, HashPassword(kdf, salt, password)))
       <==> GoodName(username)
  {
    hide Load, Save, HashPassword, GoodName, GoodCredential, SameUsers;
    var hashed := HashPassword(kdf, salt, password);
    var users := Set(Load(file), username, hashed);
    LoadIsGood(file);
    SetDistinct(Load(file), username, hashed);
    SaveLoadIff(users);
    HashIsGood(kdf, salt, password);
    SetContains(Load(file), username, hashed);
    if GoodName(username) {
      SetGood(Load(file), (username, hashed));
    }
  }

  /** After adding a good name, that user logs in with exactly the passwords that derive the same key, and
      nobody else notices. */
  lemma AddedUserLogsIn(kdf: Kdf, salt: seq<Byte>, file: Option<string>, username: string, password: string,
                        name: string, plain: string)
    requires Lawful(kdf) && GoodName(username)
    ensures var after := Load(Some(AfterAdd(kdf, salt, file, username, password)));
            Login(kdf, after, name, plain) ==
              if name == username
              then Verdict(kdf(plain, salt, ITERATIONS, KEY_LENGTH) == kdf(password, salt, ITERATIONS, KEY_LENGTH))
              else Login(kdf, Load(file), name, plain)
  {
    hide Load, AfterAdd, HashPassword, VerifyPassword, GoodName, SameUsers, Set, Get;
    var hashed := HashPassword(kdf, salt, password);
    AddReadsBackIff(kdf, salt, file, username, password);
    SameUsersLogIn(kdf, Load(Some(AfterAdd(kdf, salt, file, username, password))), Set(Load(file), username, hashed), name, plain);
    GetSet(Load(file), username, hashed, name);
    HashVerifiesIff(kdf, salt, password, plain);
  }

  lemma FoundNameIsGood(users: Dict, name: string)
    requires AllGood(users) && OrderedDict.Has(users, name)
    ensures GoodName(name)
  {
    var i := GetIsPair(users, name);
    assert users[i] in users;
  }

  /** A name that cannot stand in the file never logs in, whatever the file; adding it is not refused. */
  lemma BadNameNeverLogsIn(kdf: Kdf, file: Option<string>, name: string, plain: string)
    requires !GoodName(name)
    ensures Login(kdf, Load(file), name, plain) == Verdict(false)
  {
    hide Load, GoodName, GoodCredential;
    LoadIsGood(file);
    if OrderedDict.Has(Load(file), name) {
      FoundNameIsGood(Load(file), name);
      assert false;
    }
  }

  /** Such a name: the user just added cannot log in with the very password given. */
  lemma ColonInNameIsLost(kdf: Kdf, salt: seq<Byte>, file: Option<string>, password: string)
    ensures Login(kdf, Load(Some(AfterAdd(kdf, salt, file, "a:b", password))), "a:b", password) == Verdict(false)
  {
    hide AfterAdd, Load;
    assert "a:b"[1] == ':';
    BadNameNeverLogsIn(kdf, Some(AfterAdd(kdf, salt, file, "a:b", password)), "a:b", password);
  }

  // ----- remove -----

  lemma {:induction false} RemoveKeepsOthers(users: Dict, name: string)
    ensures forall user :: user in OrderedDict.Remove(users, name) ==> user in users
  {
    if users != [] && users[0].0 != name {
      RemoveKeepsOthers(users[1..], name);
    }
  }

  /** After removing a user, nobody logs in under that name, and everybody else as before. */
  lemma RemovedUserIsGone(kdf: Kdf, file: Option<string>, username: string, name: string, plain: string)
    ensures var after := Load(Some(Save(OrderedDict.Remove(Load(file), username))));
            Login(kdf, after, name, plain) ==
              if name == username then Verdict(false) else Login(kdf, Load(file), name, plain)
  {
    hide Load, Save, VerifyPassword, SameUsers, OrderedDict.Remove, Good, Get;
    var users := OrderedDict.Remove(Load(file), username);
    LoadIsGood(file);
    GetRemove(Load(file), username, name);
    RemoveKeepsOthers(Load(file), username);
    SaveLoadIff(users);
    SameUsersLogIn(kdf, Load(Some(Save(users))), users, name, plain);
  }

  // ----- migrate -----

  lemma {:induction false} SameNames(a: Dict, b: Dict, name: string)
    requires |a| == |b| && forall i :: 0 <= i < |a| ==> a[i].0 == b[i].0
    ensures DistinctKeys(a) == DistinctKeys(b) && OrderedDict.Has(a, name) == OrderedDict.Has(b, name)
  {
    if a != [] {
      SameNames(a[1..], b[1..], name);
      SameNames(a[1..], b[1..], a[0].0);
    }
  }

  lemma MigratedIsGood(kdf: Kdf, salts: nat -> seq<Byte>, users: Dict)
    requires AllGood(users) && DistinctKeys(users)
    ensures AllGood(Migrated(kdf, salts, users)) && DistinctKeys(Migrated(kdf, salts, users))
  {
    hide HashPassword, IsHashed, GoodName, GoodCredential, DistinctKeys;
    var r := Migrated(kdf, salts, users);
    SameNames(r, users, "");
    forall user | user in r ensures Good(user) {
      var i: nat :| i < |r| && r[i] == user;
      assert users[i] in users;
      HashIsGood(kdf, salts(i), users[i].1);
    }
  }

  predicate AllHashed(users: Dict) {
    forall user :: user in users ==> IsHashed(user.1)
  }

  lemma {:induction false} LegacyZeroIff(users: Dict)
    ensures Legacy(users) == 0 <==> AllHashed(users)
  {
    hide IsHashed;
    if users != [] {
      var init, last := users[..|users| - 1], users[|users| - 1];
      LegacyZeroIff(init);
      assert users == init + [last];
    }
  }

  lemma MigratedIsHashed(kdf: Kdf, salts: nat -> seq<Byte>, users: Dict)
    ensures AllHashed(Migrated(kdf, salts, users))
  {
    hide IsHashed, Printed;
    var r := Migrated(kdf, salts, users);
    forall user | user in r ensures IsHashed(user.1) {
      var i: nat :| i < |r| && r[i] == user;
      PrintedIsHashed(salts(i), kdf(users[i].1, salts(i), ITERATIONS, KEY_LENGTH));
    }
  }

  lemma AllHashedIsMigrated(kdf: Kdf, salts: nat -> seq<Byte>, users: Dict)
    requires AllHashed(users)
    ensures Migrated(kdf, salts, users) == users
  {
    hide IsHashed, HashPassword;
    assert forall i :: 0 <= i < |users| ==> users[i] in users;
  }

  /** What the next start reads after a migration. */
  lemma MigrateReadsBack(kdf: Kdf, salts: nat -> seq<Byte>, file: Option<string>)
    ensures var after := Load(AfterMigrate(kdf, salts, file));
            SameUsers(after, Migrated(kdf, salts, Load(file))) && AllHashed(after)
  {
    hide Load, Save, IsHashed, HashPassword, AllGood, SortUsers;
    var users := Load(file);
    LoadIsGood(file);
    LegacyZeroIff(users);
    if Legacy(users) > 0 {
      var r := Migrated(kdf, salts, users);
      MigratedIsGood(kdf, salts, users);
      MigratedIsHashed(kdf, salts, users);
      SaveLoadIff(r);
      SaveReadsBack(r);
      SortUsersKeeps(r, "");
      forall user | user in SortUsers(r) ensures IsHashed(user.1) {
        assert user in multiset(SortUsers(r)) && user in multiset(r);
      }
    } else {
      AllHashedIsMigrated(kdf, salts, users);
    }
  }

  /** Migration locks nobody out: a hashed credential is untouched, and a legacy one passes afterwards exactly
      the passwords that derive its key, its own among them. */
  lemma MigrateKeepsLogins(kdf: Kdf, salts: nat -> seq<Byte>, file: Option<string>, i: nat, plain: string)
    requires Lawful(kdf) && i < |Load(file)|
    ensures var before, after := Load(file), Load(AfterMigrate(kdf, salts, file));
            var (name, stored) := before[i];
            && Login(kdf, after, name, plain) ==
               (if IsHashed(stored) then Login(kdf, before, name, plain)
                else Verdict(kdf(plain, salts(i), ITERATIONS, KEY_LENGTH) == kdf(stored, salts(i), ITERATIONS, KEY_LENGTH)))
            && (Login(kdf, before, name, plain) == Verdict(true) ==> Login(kdf, after, name, plain) == Verdict(true))
  {
    hide Load, AfterMigrate, IsHashed, HashPassword, DistinctKeys, SameUsers, Get, VerifyHashed;
    var users := Load(file);
    var r := Migrated(kdf, salts, users);
    LoadIsGood(file);
    MigrateReadsBack(kdf, salts, file);
    SameUsersLogIn(kdf, Load(AfterMigrate(kdf, salts, file)), r, users[i].0, plain);
    SameNames(r, users, "");
    GetPair(users, i);
    GetPair(r, i);
    HashVerifiesIff(kdf, salts(i), users[i].1, plain);
  }

  /** Names outside the file stay outside it. */
  lemma MigrateAddsNobody(kdf: Kdf, salts: nat -> seq<Byte>, file: Option<string>, name: string)
    ensures OrderedDict.Has(Load(AfterMigrate(kdf, salts, file)), name) == OrderedDict.Has(Load(file), name)
  {
    hide Load, AfterMigrate, IsHashed, HashPassword, DistinctKeys, Get;
    MigrateReadsBack(kdf, salts, file);
    SameNames(Migrated(kdf, salts, Load(file)), Load(file), name);
  }

  /** Migrating again, with whatever salts, changes nothing. */
  lemma MigrateIsIdempotent(kdf: Kdf, salts: nat -> seq<Byte>, again: nat -> seq<Byte>, file: Option<string>)
    ensures AfterMigrate(kdf, again, AfterMigrate(kdf, salts, file)) == AfterMigrate(kdf, salts, file)
  {
    MigrateReadsBack(kdf, salts, file);
    LegacyZeroIff(Load(AfterMigrate(kdf, salts, file)));
  }
}
