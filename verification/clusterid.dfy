/** The id a cluster's address stands for (internal/clusterid/clusterid.go). */
module ClusterId {
  // Addresses are plain text: letters, digits and the marks of section 2.3 of RFC 3986, with
  // colons and slashes between the parts. Such text is read here as `url.Parse` reads it.

  import opened Options

  predicate Letter(c: char) {
    'a' <= c <= 'z' || 'A' <= c <= 'Z'
  }

  predicate Digit(c: char) {
    '0' <= c <= '9'
  }

  predicate InScheme(c: char) {
    Letter(c) || Digit(c) || c == '.' || c == '-'
  }

  predicate Plain(text: string) {
    forall i | 0 <= i < |text| :: InScheme(text[i]) || text[i] in "_~:/"
  }

  datatype Address = Address(scheme: string, host: string, port: string, path: string)

  /** Where the character first stands, or the end. */
  function Index(text: string, c: char): (at: nat)
    ensures at <= |text| && (at < |text| ==> text[at] == c) && forall i | 0 <= i < at :: text[i] != c
  {
    if text == "" || text[0] == c then 0 else Index(text[1..], c) + 1
  }

  function SchemeChars(text: string): (n: nat)
    ensures n <= |text| && (n < |text| ==> !InScheme(text[n])) && forall i | 0 <= i < n :: InScheme(text[i])
  {
    if text == "" || !InScheme(text[0]) then 0 else SchemeChars(text[1..]) + 1
  }

  /** How long the scheme in front of the first colon is, none when there is no scheme. */
  function SchemeLength(text: string): (n: nat)
    ensures n < |text| || n == 0
  {
    var n := SchemeChars(text);
    if 0 < n < |text| && text[n] == ':' && Letter(text[0]) then n else 0
  }

  predicate Digits(port: string) {
    forall i | 0 <= i < |port| :: Digit(port[i])
  }

  /** A host with at most one colon, behind which is a port. */
  function SplitAuthority(authority: string): Option<(string, string)> {
    var at := Index(authority, ':');
    if at == |authority| then Some((authority, ""))
    else
      var port := authority[at + 1..];
      if Digits(port) then Some((authority[..at], port)) else None
  }

  /** What stands behind the two slashes. */
  function ParseBehind(scheme: string, behind: string): Option<Address> {
    var at := Index(behind, '/');
    if at == 0 then None
    else match SplitAuthority(behind[..at])
      case None => None
      case Some((host, port)) => Some(Address(scheme, host, port, behind[at..]))
  }

  /** None where the text is no address, or one without a host. */
  function Parse(text: string): Option<Address> {
    var n := SchemeLength(text);
    var rest := if n > 0 then text[n + 1..] else text;
    if "//" <= rest then ParseBehind(text[..n], rest[2..]) else None
  }

  function LowerChar(c: char): char {
    if 'A' <= c <= 'Z' then (c as int + 32) as char else c
  }

  function Lower(text: string): string {
    seq(|text|, i requires 0 <= i < |text| => LowerChar(text[i]))
  }

  function DefaultPort(scheme: string): string {
    if scheme == "https" then "443"
    else if scheme == "http" then "80"
    else ""
  }

  function TrimSlashes(path: string): string {
    if path != "" && path[|path| - 1] == '/' then TrimSlashes(path[..|path| - 1]) else path
  }

  function Authority(host: string, port: string): string {
    if port == "" then host else host + ":" + port
  }

  function Written(a: Address): string {
    a.scheme + "://" + Authority(a.host, a.port) + a.path
  }

  /** What tells clusters apart. */
  function Normal(a: Address): Address {
    var scheme := Lower(a.scheme);
    Address(scheme, Lower(a.host), if a.port == DefaultPort(scheme) then "" else a.port, TrimSlashes(a.path))
  }

  /** Text that is no address comes back unchanged. */
  function Normalize(text: string): string {
    match Parse(text)
    case None => text
    case Some(a) => Written(Normal(a))
  }

  // ---------------------------------------------------------------------------
  // Reading what was written
  // ---------------------------------------------------------------------------

  /** The parts of an address as they can be told apart once written. */
  predicate Parts(a: Address) {
    && (a.scheme != "" ==> Letter(a.scheme[0])) && (forall i | 0 <= i < |a.scheme| :: InScheme(a.scheme[i]))
    && '/' !in a.host && ':' !in a.host && Digits(a.port)
    && (a.path != "" ==> a.path[0] == '/')
  }

  lemma {:induction false} IndexIs(front: string, back: string, c: char)
    requires c !in front && (back != "" ==> back[0] == c)
    ensures Index(front + back, c) == |front|
  {
    if front == "" {
      assert front + back == back;
    } else {
      IndexIs(front[1..], back, c);
      assert (front + back)[1..] == front[1..] + back;
    }
  }

  lemma {:induction false} SchemeCharsAre(scheme: string, rest: string)
    requires (forall i | 0 <= i < |scheme| :: InScheme(scheme[i])) && rest != "" && !InScheme(rest[0])
    ensures SchemeChars(scheme + rest) == |scheme|
  {
    if scheme == "" {
      assert scheme + rest == rest;
    } else {
      SchemeCharsAre(scheme[1..], rest);
      assert (scheme + rest)[1..] == scheme[1..] + rest;
    }
  }

  /** A scheme is read back. */
  lemma SchemeIsRead(scheme: string, behind: string)
    requires scheme != "" && Letter(scheme[0]) && forall i | 0 <= i < |scheme| :: InScheme(scheme[i])
    ensures Parse(scheme + "://" + behind) == ParseBehind(scheme, behind)
  {
    var text, rest := scheme + "://" + behind, "//" + behind;
    assert text == scheme + (":" + rest);
    SchemeCharsAre(scheme, ":" + rest);
    assert text[|scheme| + 1..] == rest && rest[2..] == behind;
    assert text[..|scheme|] == scheme;
  }

  lemma AuthoritySplits(host: string, port: string)
    requires ':' !in host && Digits(port)
    ensures SplitAuthority(Authority(host, port)) == Some((host, port))
  {
    var back := if port == "" then "" else ":" + port;
    assert Authority(host, port) == host + back;
    IndexIs(host, back, ':');
  }

  lemma WrittenIs(a: Address, behind: string)
    requires behind == Authority(a.host, a.port) + a.path
    ensures Written(a) == a.scheme + "://" + behind
  {
    assert a.scheme + "://" + Authority(a.host, a.port) + a.path == a.scheme + "://" + (Authority(a.host, a.port) + a.path);
  }

  lemma BehindReadsBack(a: Address)
    requires Parts(a) && (a.host != "" || a.port != "")
    ensures ParseBehind(a.scheme, Authority(a.host, a.port) + a.path) == Some(a)
  {
    var authority := Authority(a.host, a.port);
    IndexIs(authority, a.path, '/');
    assert (authority + a.path)[..|authority|] == authority && (authority + a.path)[|authority|..] == a.path;
    AuthoritySplits(a.host, a.port);
  }

  /** An address with a scheme and a host or a port reads back as it was written. */
  lemma ReadsBack(a: Address)
    requires Parts(a) && a.scheme != "" && (a.host != "" || a.port != "")
    ensures Parse(Written(a)) == Some(a)
  {
    var behind := Authority(a.host, a.port) + a.path;
    BehindReadsBack(a);
    SchemeIsRead(a.scheme, behind);
    WrittenIs(a, behind);
  }

  lemma {:induction false} TrimmedSlashes(path: string)
    ensures TrimSlashes(path) <= path && TrimSlashes(TrimSlashes(path)) == TrimSlashes(path)
  {
    if path != "" && path[|path| - 1] == '/' {
      TrimmedSlashes(path[..|path| - 1]);
    }
  }

  lemma LowerTwice(text: string)
    ensures Lower(Lower(text)) == Lower(text)
  {}

  lemma ParsedParts(text: string)
    requires Plain(text) && Parse(text).Some?
    ensures Parts(Parse(text).value)
  {
    var n := SchemeLength(text);
    var rest := if n > 0 then text[n + 1..] else text;
    var at := Index(rest[2..], '/');
    var authority := rest[2..][..at];
    assert '/' !in authority;
  }

  /** The parts stay parts in lower case. */
  lemma NormalParts(a: Address)
    requires Parts(a)
    ensures Parts(Normal(a)) && Normal(Normal(a)) == Normal(a)
  {
    TrimmedSlashes(a.path);
    LowerTwice(a.scheme);
    LowerTwice(a.host);
  }

  lemma NoSchemeNoAddress(behind: string)
    ensures Parse("://" + behind).None?
  {
    assert ("://" + behind)[0] == ':';
  }

  /** What is written of an address in normal form is no address any more, or the same. */
  lemma WrittenIsNormal(a: Address)
    requires Parts(a) && Normal(a) == a
    ensures Normalize(Written(a)) == Written(a)
  {
    var behind := Authority(a.host, a.port) + a.path;
    WrittenIs(a, behind);
    if a.scheme == "" {
      assert Written(a) == "://" + behind;
      NoSchemeNoAddress(behind);
    } else if a.host == "" && a.port == "" {
      assert behind == a.path;
      SchemeIsRead(a.scheme, behind);
    } else {
      ReadsBack(a);
    }
  }

  /** A normal id is its own. */
  lemma NormalizeTwice(text: string)
    requires Plain(text)
    ensures Normalize(Normalize(text)) == Normalize(text)
  {
    if Parse(text).Some? {
      ParsedParts(text);
      NormalParts(Parse(text).value);
      WrittenIsNormal(Normal(Parse(text).value));
    }
  }

  // What makes addresses alike, without putting them in normal form.

  predicate SameChar(c: char, d: char) {
    c == d || ('a' <= c <= 'z' && c as int == d as int + 32) || ('a' <= d <= 'z' && d as int == c as int + 32)
  }

  /** The same but for the case of letters. */
  predicate SameText(one: string, other: string) {
    |one| == |other| && forall i | 0 <= i < |one| :: SameChar(one[i], other[i])
  }

  /** No port, or the one the scheme has anyway. */
  predicate Implied(scheme: string, port: string) {
    port == "" || (SameText(scheme, "https") && port == "443") || (SameText(scheme, "http") && port == "80")
  }

  predicate SlashesFrom(core: string, path: string) {
    core <= path && forall i | |core| <= i < |path| :: path[i] == '/'
  }

  ghost predicate SameButSlashes(one: string, other: string) {
    exists core :: SlashesFrom(core, one) && SlashesFrom(core, other)
  }

  ghost predicate AlikeAddresses(a: Address, b: Address) {
    SameText(a.scheme, b.scheme) && SameText(a.host, b.host) && SameButSlashes(a.path, b.path) &&
    (a.port == b.port || (Implied(a.scheme, a.port) && Implied(a.scheme, b.port)))
  }

  lemma LowerIff(one: string, other: string)
    ensures Lower(one) == Lower(other) <==> SameText(one, other)
  {
    if Lower(one) == Lower(other) {
      forall i | 0 <= i < |one| ensures SameChar(one[i], other[i]) {
        assert Lower(one)[i] == Lower(other)[i];
      }
    }
  }

  lemma {:induction false} TrimmedOf(core: string, path: string)
    requires SlashesFrom(core, path)
    ensures TrimSlashes(path) == TrimSlashes(core)
    decreases |path|
  {
    if |core| == |path| {
      assert core == path;
    } else {
      TrimmedOf(core, path[..|path| - 1]);
    }
  }

  lemma {:induction false} TrimmedIsCore(path: string)
    ensures SlashesFrom(TrimSlashes(path), path)
  {
    if path != "" && path[|path| - 1] == '/' {
      TrimmedIsCore(path[..|path| - 1]);
    }
  }

  lemma TrimIff(one: string, other: string)
    ensures TrimSlashes(one) == TrimSlashes(other) <==> SameButSlashes(one, other)
  {
    TrimmedIsCore(one);
    TrimmedIsCore(other);
    if core :| SlashesFrom(core, one) && SlashesFrom(core, other) {
      TrimmedOf(core, one);
      TrimmedOf(core, other);
    }
  }

  lemma PortsIff(scheme: string, p: string, q: string)
    ensures (if p == DefaultPort(Lower(scheme)) then "" else p) == (if q == DefaultPort(Lower(scheme)) then "" else q) <==>
            p == q || (Implied(scheme, p) && Implied(scheme, q))
  {
    LowerIff(scheme, "https");
    LowerIff(scheme, "http");
    assert Lower("https") == "https" && Lower("http") == "http";
  }

  lemma NormalIff(a: Address, b: Address)
    ensures Normal(a) == Normal(b) <==> AlikeAddresses(a, b)
  {
    LowerIff(a.scheme, b.scheme);
    LowerIff(a.host, b.host);
    TrimIff(a.path, b.path);
    PortsIff(a.scheme, a.port, b.port);
  }

  /** A bare host shares its id with port 443 under https and with port 80 under http, and with no
      other port; two ports that are both written share one only when they are equal. */
  lemma PortsShareIff(scheme: string, host: string, path: string, p: string, q: string)
    requires Parts(Address(scheme, host, p, path)) && Parts(Address(scheme, host, q, path)) && scheme != "" && host != ""
    ensures Normalize(Written(Address(scheme, host, p, path))) == Normalize(Written(Address(scheme, host, q, path))) <==>
            p == q || (Implied(scheme, p) && Implied(scheme, q))
  {
    var one, other := Address(scheme, host, p, path), Address(scheme, host, q, path);
    ReadsBack(one);
    ReadsBack(other);
    NormalParts(one);
    NormalParts(other);
    ReadsBack(Normal(one));
    ReadsBack(Normal(other));
    PortsIff(scheme, p, q);
  }

  /** Two addresses that name a host under a scheme share an id exactly when they are alike but
      for the case of scheme and host, a default port and slashes at the end. */
  lemma SameIdIff(one: string, other: string)
    requires Plain(one) && Parse(one).Some? && Parse(one).value.scheme != "" && Parse(one).value.host != ""
    requires Plain(other) && Parse(other).Some? && Parse(other).value.scheme != "" && Parse(other).value.host != ""
    ensures Normalize(one) == Normalize(other) <==> AlikeAddresses(Parse(one).value, Parse(other).value)
  {
    ParsedParts(one);
    ParsedParts(other);
    NormalParts(Parse(one).value);
    NormalParts(Parse(other).value);
    ReadsBack(Normal(Parse(one).value));
    ReadsBack(Normal(Parse(other).value));
    NormalIff(Parse(one).value, Parse(other).value);
  }
}
