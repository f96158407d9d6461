/** The blocklist: reading it, and matching hosts against its domains. Whether a text is an address or a
    network, and which addresses a network contains, is the address library's answer. */
module DomainFilter {
  import opened FileLines
  import opened Options
  import opened Pieces
  import opened Text

  /** What the address library says. */
  datatype Addresses = Addresses(isNetwork: string -> bool, contains: (string, string) -> bool)

  datatype Blocklist = Blocklist(domains: set<string>, networks: seq<string>)

  const NOTHING := Blocklist({}, [])

  // ----- reading the file -----

  function EntryOf(line: string): string {
    var uncommented := match FindChar(line, '#') case None => line case Some(i) => line[..i];
    Lower(Strip(uncommented))
  }

  function AddLine(library: Addresses, list: Blocklist, line: string): Blocklist {
    var entry := EntryOf(line);
    if entry == "" then list
    else if library.isNetwork(entry) then list.(networks := list.networks + [entry])
    else list.(domains := list.domains + {entry})
  }

  function AddLines(library: Addresses, list: Blocklist, lines: seq<string>): Blocklist
    decreases |lines|
  {
    if lines == [] then list else AddLines(library, AddLine(library, list, lines[0]), lines[1..])
  }

  function ParseFile(library: Addresses, file: Option<string>): Blocklist {
    match file
    case None => NOTHING
    case Some(text) => AddLines(library, NOTHING, Lines(text))
  }

  method ParseBlocklist(library: Addresses, file: Option<string>) returns (domains: set<string>, networks: seq<string>)
    ensures Blocklist(domains, networks) == ParseFile(library, file)
  {
    domains, networks := {}, [];
    if file.None? {
      return;
    }
    var lines := Lines(file.value);
    var i := 0;
    while i < |lines|
      invariant i <= |lines|
      invariant AddLines(library, Blocklist(domains, networks), lines[i..]) == AddLines(library, NOTHING, lines)
    {
      var entry := EntryOf(lines[i]);
      if entry != "" {
        if '/' in entry && library.isNetwork(entry) {
          networks := networks + [entry];
        } else if library.isNetwork(entry) {
          networks := networks + [entry];
        } else {
          domains := domains + {entry};
        }
      }
      i := i + 1;
    }
  }

  // ----- matching -----

  function Canonical(host: string): string {
    Strip(Lower(host))
  }

  /** Matched by one entry: the host itself, or a name under it. */
  predicate Matches(host: string, domain: string) {
    host == domain || EndsWith(host, "." + domain)
  }

  ghost predicate InDomains(host: string, domains: set<string>) {
    exists domain :: domain in domains && Matches(host, domain)
  }

  ghost predicate InNetworks(library: Addresses, host: string, networks: seq<string>) {
    exists network :: network in networks && library.contains(network, host)
  }

  ghost predicate Blocked(library: Addresses, list: Blocklist, host: Option<string>) {
    host.Some? && host.value != ""
    && (InDomains(Canonical(host.value), list.domains) || InNetworks(library, Canonical(host.value), list.networks))
  }

  method IsBlocked(library: Addresses, list: Blocklist, host: Option<string>) returns (blocked: bool)
    ensures blocked == Blocked(library, list, host)
  {
    if host.None? || host.value == "" {
      return false;
    }
    var name := Canonical(host.value);
    if name in list.domains {
      assert Matches(name, name);
      return true;
    }
    var left := list.domains;
    while left != {}
      invariant left <= list.domains
      invariant forall domain :: domain in list.domains - left ==> !Matches(name, domain)
      decreases |left|
    {
      var domain :| domain in left;
      if EndsWith(name, "." + domain) {
        assert Matches(name, domain);
        return true;
      }
      left := left - {domain};
    }
    var i := 0;
    while i < |list.networks|
      invariant i <= |list.networks|
      invariant forall k :: 0 <= k < i ==> !library.contains(list.networks[k], name)
    {
      if library.contains(list.networks[i], name) {
        return true;
      }
      i := i + 1;
    }
    return false;
  }

  // ----- what matching means -----

  function Labels(name: string): seq<string> {
    Split(name, ".")
  }

  /** The last labels of a host. */
  predicate IsTail(tail: seq<string>, all: seq<string>) {
    |tail| <= |all| && all[|all| - |tail|..] == tail
  }

  lemma LabelsEnd(first: seq<string>, last: seq<string>)
    ensures IsTail(last, first + last)
  {
  }

  /** A host matches an entry exactly when the entry's labels are the last labels of the host's. */
  lemma MatchesIffLabels(host: string, domain: string)
    ensures Matches(host, domain) <==> IsTail(Labels(domain), Labels(host))
  {
    hide Split, Join;
    assert "." == ['.'];
    if Matches(host, domain) && host != domain {
      var n := |host| - |domain| - 1;
      SplitConcat(host[..n], domain, '.');
      assert host[n..] == "." + domain;
      assert host == host[..n] + ['.'] + domain;
      LabelsEnd(Labels(host[..n]), Labels(domain));
    }
    if IsTail(Labels(domain), Labels(host)) {
      var first := Labels(host)[..|Labels(host)| - |Labels(domain)|];
      assert Labels(host) == first + Labels(domain);
      JoinSplit(host, '.');
      JoinSplit(domain, '.');
      if first == [] {
        assert [] + Labels(domain) == Labels(domain);
      } else {
        JoinConcat(first, Labels(domain), ".");
        assert host == Join(first, ".") + ("." + domain);
      }
    }
  }

  /** Domain blocking in terms of labels. */
  lemma InDomainsIffLabels(host: string, domains: set<string>)
    ensures InDomains(host, domains) <==> exists domain :: domain in domains && IsTail(Labels(domain), Labels(host))
  {
    hide Matches, IsTail;
    forall domain ensures Matches(host, domain) <==> IsTail(Labels(domain), Labels(host)) {
      MatchesIffLabels(host, domain);
    }
  }

  /** Every name under a blocked domain is blocked. */
  lemma SubdomainsAreBlocked(host: string, sub: string, domains: set<string>)
    requires InDomains(host, domains)
    ensures InDomains(sub + "." + host, domains)
  {
    var domain :| domain in domains && Matches(host, domain);
    var longer := sub + "." + host;
    if host == domain {
      assert longer[|sub|..] == "." + domain;
    } else {
      assert longer[|longer| - |domain| - 1..] == host[|host| - |domain| - 1..];
    }
    assert Matches(longer, domain);
  }

  lemma {:induction false} LStripBefore(a: string, b: string)
    requires b != "" && !IsBlank(b[0], TextBlanks)
    ensures LStrip(a + b, TextBlanks) == LStrip(a, TextBlanks) + b
  {
    if a == "" {
      assert a + b == b;
    } else if IsBlank(a[0], TextBlanks) {
      assert (a + b)[1..] == a[1..] + b;
      LStripBefore(a[1..], b);
    }
  }

  lemma {:induction false} RStripAfter(a: string, b: string)
    requires b != "" && !IsBlank(b[0], TextBlanks)
    ensures RStrip(a + b, TextBlanks) == a + RStrip(b, TextBlanks)
  {
    if IsBlank(b[|b| - 1], TextBlanks) {
      assert (a + b)[..|a + b| - 1] == a + b[..|b| - 1];
      RStripAfter(a, b[..|b| - 1]);
    }
  }

  lemma LowerDotted(sub: string, host: string)
    ensures Lower(sub + "." + host) == Lower(sub) + ("." + Lower(host))
  {
  }

  lemma LowerStart(host: string)
    requires host != "" && !IsBlank(host[0], TextBlanks)
    ensures Lower(host) != "" && !IsBlank(Lower(host)[0], TextBlanks)
    ensures LStrip(Lower(host), TextBlanks) == Lower(host)
  {
  }

  lemma StripUnder(sub: string, host: string)
    requires host != "" && !IsBlank(host[0], TextBlanks)
    ensures Strip(sub + ("." + host)) == LStrip(sub, TextBlanks) + "." + RStrip(host, TextBlanks)
  {
    hide LStrip, RStrip;
    LStripBefore(sub, "." + host);
    var k := LStrip(sub, TextBlanks) + ".";
    assert LStrip(sub, TextBlanks) + ("." + host) == k + host;
    RStripAfter(k, host);
  }

  /** A dotted name keeps its end when it is made canonical. */
  lemma CanonicalUnder(sub: string, host: string) returns (k: string)
    requires host != "" && !IsBlank(host[0], TextBlanks)
    ensures Canonical(sub + "." + host) == k + "." + Canonical(host)
  {
    hide LStrip, RStrip, IsBlank;
    LowerDotted(sub, host);
    LowerStart(host);
    StripUnder(Lower(sub), Lower(host));
    k := LStrip(Lower(sub), TextBlanks);
  }

  /** Stated of what clients write: case does not matter, and neither do blanks around the whole name. */
  lemma SubdomainHostsAreBlocked(library: Addresses, list: Blocklist, host: string, sub: string)
    requires host != "" && !IsBlank(host[0], TextBlanks)
    requires InDomains(Canonical(host), list.domains)
    ensures Blocked(library, list, Some(sub + "." + host))
  {
    hide InDomains, Canonical;
    var k := CanonicalUnder(sub, host);
    SubdomainsAreBlocked(Canonical(host), k, list.domains);
  }

  // ----- the file -----

  /** What a file blocks: exactly its entries, as networks where they are such, and else as domains. */
  lemma {:induction false} DomainsAreEntries(library: Addresses, list: Blocklist, lines: seq<string>, entry: string)
    ensures entry in AddLines(library, list, lines).domains
       <==> entry in list.domains
            || (entry != "" && !library.isNetwork(entry) && exists line :: line in lines && EntryOf(line) == entry)
    ensures entry in AddLines(library, list, lines).networks
       <==> entry in list.networks
            || (entry != "" && library.isNetwork(entry) && exists line :: line in lines && EntryOf(line) == entry)
    decreases |lines|
  {
    hide EntryOf;
    if lines != [] {
      DomainsAreEntries(library, AddLine(library, list, lines[0]), lines[1..], entry);
      assert forall line :: line in lines <==> line == lines[0] || line in lines[1..];
    }
  }

  /** More lines, in whatever order, block no fewer hosts by domain. */
  lemma MoreLinesBlockMore(library: Addresses, fewer: string, more: string, host: string)
    requires forall line :: line in Lines(fewer) ==> line in Lines(more)
    requires InDomains(host, ParseFile(library, Some(fewer)).domains)
    ensures InDomains(host, ParseFile(library, Some(more)).domains)
  {
    hide Lines, EntryOf, Matches, AddLines;
    var domain :| domain in ParseFile(library, Some(fewer)).domains && Matches(host, domain);
    DomainsAreEntries(library, NOTHING, Lines(fewer), domain);
    DomainsAreEntries(library, NOTHING, Lines(more), domain);
    assert domain in ParseFile(library, Some(more)).domains && Matches(host, domain);
  }

  // ----- in terms of what is written -----

  /** Every line is one of these: blanks, an entry, blanks, and then nothing or a comment. */
  lemma EntryReads(left: string, entry: string, right: string, note: string)
    requires Blank(left) && Blank(right) && Trimmed(entry) && '#' !in entry && (note == "" || note[0] == '#')
    ensures EntryOf(left + entry + right + note) == Lower(entry)
  {
    hide Strip, Lower, Trimmed;
    var text := left + entry + right;
    assert forall i :: 0 <= i < |text| ==> text[i] in left || text[i] in entry || text[i] in right;
    assert '#' !in text;
    if note == "" {
      assert text + note == text;
    } else {
      var line := text + note;
      assert line[|text|] == '#' && line[..|text|] == text;
      assert forall i :: 0 <= i < |text| ==> line[i] == text[i] && text[i] in text;
    }
    StripBetween(left, entry, right);
  }

  lemma LowerBlanks(s: string)
    ensures Blank(s) ==> Blank(Lower(s))
    ensures Trimmed(s) ==> Trimmed(Lower(s))
  {
  }

  /** Every host is one of these: blanks, a name, blanks. */
  lemma HostReads(left: string, name: string, right: string)
    requires Blank(left) && Blank(right) && Trimmed(name)
    ensures Canonical(left + name + right) == Lower(name)
  {
    hide Strip, Trimmed, Blank;
    assert Lower(left + name + right) == Lower(left) + Lower(name) + Lower(right);
    LowerBlanks(left);
    LowerBlanks(name);
    LowerBlanks(right);
    StripBetween(Lower(left), Lower(name), Lower(right));
  }

  /** What one entry says of a host. */
  predicate Lists(library: Addresses, entry: string, host: string) {
    && entry != ""
    && if library.isNetwork(entry) then library.contains(entry, host) else IsTail(Labels(entry), Labels(host))
  }

  /** A host is blocked if and only if some line of the file lists a name whose labels end the host's, or a network that
      contains it; in whatever case, with whatever blanks around and whatever comment behind. */
  lemma BlockedIffListed(library: Addresses, text: string, left: string, name: string, right: string)
    requires Blank(left) && Blank(right) && Trimmed(name) && left + name + right != ""
    ensures Blocked(library, ParseFile(library, Some(text)), Some(left + name + right))
       <==> exists line :: line in Lines(text) && Lists(library, EntryOf(line), Lower(name))
  {
    hide Lines, EntryOf, Canonical, AddLines, Labels, Matches, Blank, Trimmed, Lower, IsTail;
    var host, list := left + name + right, ParseFile(library, Some(text));
    HostReads(left, name, right);
    InDomainsIffLabels(Lower(name), list.domains);
    forall entry ensures
        && (entry in list.domains <==> entry != "" && !library.isNetwork(entry)
                                       && exists line :: line in Lines(text) && EntryOf(line) == entry)
        && (entry in list.networks <==> entry != "" && library.isNetwork(entry)
                                        && exists line :: line in Lines(text) && EntryOf(line) == entry)
    {
      DomainsAreEntries(library, NOTHING, Lines(text), entry);
    }
    if line :| line in Lines(text) && Lists(library, EntryOf(line), Lower(name)) {
      assert EntryOf(line) in list.domains || EntryOf(line) in list.networks;
    }
  }

  lemma SolidIsTrimmed(s: string)
    requires Solid(s)
    ensures Trimmed(s)
  {
    assert s != "" ==> s[0] in s && s[|s| - 1] in s;
  }

  /** The same name, or one under it. */
  predicate Under(host: string, name: string) {
    host == name || (EndsWith(host, "." + name) && Solid(host))
  }

  lemma UnderMatches(host: string, name: string, listed: string)
    requires Under(host, name) && Lower(name) == Lower(listed)
    ensures Matches(Lower(host), Lower(listed))
  {
    if host != name {
      var sub := host[..|host| - |name| - 1];
      assert host == sub + "." + name;
      LowerDotted(sub, name);
      assert Lower(host)[|sub|..] == "." + Lower(listed);
    }
  }

  lemma UnderIsTrimmed(host: string, name: string)
    requires Solid(name) && Under(host, name)
    ensures Trimmed(host) && (name != "" ==> host != "")
  {
    SolidIsTrimmed(host);
  }

  lemma NoBlanks()
    ensures Blank("")
  {
  }

  /** So a name that is listed blocks itself and every name under it, however the two are written. */
  lemma ListedNameIsBlocked(library: Addresses, text: string, left: string, listed: string, right: string, note: string,
                            host: string, name: string)
    requires left + listed + right + note in Lines(text) && Blank(left) && Blank(right) && (note == "" || note[0] == '#')
    requires listed != "" && Solid(listed) && '#' !in listed && !library.isNetwork(Lower(listed))
    requires Solid(name) && Lower(name) == Lower(listed) && Under(host, name)
    ensures Blocked(library, ParseFile(library, Some(text)), Some(host))
  {
    hide Lines, Labels, ParseFile, Blocked, Canonical, Lower, Trimmed, Solid, Matches, EntryOf, IsTail, Under, Blank;
    SolidIsTrimmed(listed);
    EntryReads(left, listed, right, note);
    UnderMatches(host, name, listed);
    MatchesIffLabels(Lower(host), Lower(listed));
    assert Lists(library, EntryOf(left + listed + right + note), Lower(host));
    UnderIsTrimmed(host, name);
    assert "" + host + "" == host;
    NoBlanks();
    BlockedIffListed(library, text, "", host, "");
  }
}
