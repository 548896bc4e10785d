/**
 The allowlist of origins (src/lib/app-origins.ts:14-374).

 `new URL` is a parameter: what is assumed of it is `UrlParser` below. Letters are lowered in
 ASCII only.
 */
module AppOrigins {
  import opened Options

  // Strings

  /** `\s`, and what `trim` takes off. */
  predicate IsSpace(c: char) {
    || '\t' <= c <= '\r' || c == ' ' || c == '\U{A0}' || c == '\U{FEFF}' || c == '\U{2028}' || c == '\U{2029}'
    || c == '\U{1680}' || '\U{2000}' <= c <= '\U{200A}' || c == '\U{202F}' || c == '\U{205F}' || c == '\U{3000}'
  }

  predicate NoSpace(s: string) {
    forall i :: 0 <= i < |s| ==> !IsSpace(s[i])
  }

  function TrimStart(s: string): string {
    if s != "" && IsSpace(s[0]) then TrimStart(s[1..]) else s
  }

  function TrimEnd(s: string): string {
    if s != "" && IsSpace(s[|s| - 1]) then TrimEnd(s[..|s| - 1]) else s
  }

  function Trim(s: string): string {
    TrimEnd(TrimStart(s))
  }

  function LowerChar(c: char): (r: char)
    ensures r as int == if 65 <= c as int <= 90 then c as int + 32 else c as int
  {
    if 'A' <= c <= 'Z' then c - 'A' + 'a' else c
  }

  function Lower(s: string): (r: string)
    ensures |r| == |s|
  {
    seq(|s|, i requires 0 <= i < |s| => LowerChar(s[i]))
  }

  /** One digit or more from `i` to the end. */
  predicate DigitsFrom(s: string, i: nat) {
    i < |s| && forall j :: i <= j < |s| ==> Digit(s[j])
  }

  predicate Digit(c: char) {
    '0' <= c <= '9'
  }

  lemma LowerDigit(c: char)
    ensures Digit(LowerChar(c)) <==> Digit(c)
    ensures Digit(c) ==> LowerChar(c) == c
  {
  }

  lemma LowerDigits(s: string, i: nat)
    ensures DigitsFrom(Lower(s), i) <==> DigitsFrom(s, i)
    ensures DigitsFrom(s, i) ==> Lower(s)[i..] == s[i..]
  {
    forall j | i <= j < |s| ensures Digit(Lower(s)[j]) <==> Digit(s[j]) { LowerDigit(s[j]); }
    if DigitsFrom(s, i) {
      forall j | i <= j < |s| ensures Lower(s)[j] == s[j] {
        assert Digit(s[j]);
        LowerDigit(s[j]);
      }
    }
  }

  /** Where `c` first stands in `s`, or its length. */
  function Find(s: string, c: char): (i: nat)
    ensures i <= |s| && (i < |s| ==> s[i] == c) && forall j :: 0 <= j < i ==> s[j] != c
  {
    if s == "" || s[0] == c then 0 else 1 + Find(s[1..], c)
  }

  /** `s.split(c)` */
  function Split(s: string, c: char): seq<string>
    decreases |s|
  {
    var i := Find(s, c);
    if i == |s| then [s] else [s[..i]] + Split(s[i + 1..], c)
  }

  predicate EndsWith(s: string, suffix: string) {
    |suffix| <= |s| && s[|s| - |suffix|..] == suffix
  }

  predicate StartsWith(s: string, prefix: string) {
    |prefix| <= |s| && s[..|prefix|] == prefix
  }

  // Hosts

  /** What may follow a hostname that ends at `i`: nothing, or a colon and digits. */
  function PortAt(s: string, i: nat): Option<Option<string>>
    requires i <= |s|
  {
    if i == |s| then Some(None)
    else if s[i] == ':' && DigitsFrom(s, i + 1) then Some(Some(s[i + 1..]))
    else None
  }

  /** `^(\[[^\]]+\]|[^:]+)(?::(\d+))?$`: where the hostname ends, or no match. */
  function HostnameEnd(s: string): (r: Option<nat>)
    ensures r.Some? ==> 0 < r.value <= |s| && PortAt(s, r.value).Some?
  {
    var close, colon := Find(s, ']'), Find(s, ':');
    if s != "" && s[0] == '[' && 2 <= close < |s| && PortAt(s, close + 1).Some? then Some(close + 1)
    else if colon > 0 && PortAt(s, colon).Some? then Some(colon)
    else None
  }

  datatype HostPort = HostPort(hostname: string, port: Option<string>)

  function SplitHostPort(s: string): Option<HostPort> {
    var end := HostnameEnd(s);
    if end.None? then None else Some(HostPort(s[..end.value], PortAt(s, end.value).value))
  }

  lemma FindIs(s: string, c: char, i: nat)
    requires i <= |s| && (i < |s| ==> s[i] == c) && forall j :: 0 <= j < i ==> s[j] != c
    ensures Find(s, c) == i
  {
  }

  lemma LowerPunctuation(c: char, d: char)
    requires !('a' <= d <= 'z') && !('A' <= d <= 'Z')
    ensures LowerChar(c) == d <==> c == d
  {
  }

  lemma LowerFind(s: string, c: char)
    requires !('a' <= c <= 'z') && !('A' <= c <= 'Z')
    ensures Find(Lower(s), c) == Find(s, c)
  {
    forall i | 0 <= i < |s| ensures Lower(s)[i] == c <==> s[i] == c { LowerPunctuation(s[i], c); }
    FindIs(Lower(s), c, Find(s, c));
  }

  lemma LowerPortAt(s: string, i: nat)
    requires i <= |s|
    ensures PortAt(Lower(s), i) == PortAt(s, i)
  {
    LowerDigits(s, i + 1);
    if i < |s| { LowerPunctuation(s[i], ':'); }
  }

  lemma LowerEnd(s: string)
    ensures HostnameEnd(Lower(s)) == HostnameEnd(s)
  {
    LowerFind(s, ']');
    LowerFind(s, ':');
    if s != "" { LowerPunctuation(s[0], '['); }
    if Find(s, ']') < |s| { LowerPortAt(s, Find(s, ']') + 1); }
    LowerPortAt(s, Find(s, ':'));
  }

  /** Lowering a host changes neither where its hostname ends nor its port. */
  lemma LowerSplit(s: string)
    ensures SplitHostPort(s).None? <==> SplitHostPort(Lower(s)).None?
    ensures SplitHostPort(s).Some? ==>
      SplitHostPort(Lower(s)) == Some(HostPort(Lower(SplitHostPort(s).value.hostname), SplitHostPort(s).value.port))
  {
    LowerEnd(s);
    var end := HostnameEnd(s);
    if end.Some? {
      LowerPortAt(s, end.value);
      assert Lower(s)[..end.value] == Lower(s[..end.value]);
    }
  }

  /** A hostname by itself is a host without a port. */
  lemma HostnameAlone(s: string)
    requires SplitHostPort(s).Some?
    ensures SplitHostPort(SplitHostPort(s).value.hostname) == Some(HostPort(SplitHostPort(s).value.hostname, None))
  {
    var n := HostnameEnd(s).value;
    var h := s[..n];
    var close, colon := Find(s, ']'), Find(s, ':');
    if s[0] == '[' && 2 <= close < |s| && PortAt(s, close + 1).Some? {
      FindIs(h, ']', close);
    } else {
      FindIs(h, ':', n);
      if close < n { FindIs(h, ']', close); } else { FindIs(h, ']', n); }
    }
    assert h[..n] == h;
  }

  // Patterns

  datatype Protocol = Http | Https
  datatype OriginPattern = OriginPattern(
    hostname: string, host: string, port: Option<string>, protocol: Option<Protocol>, wildcard: bool, loopback: bool)

  datatype OriginError =
    | EmptyEntry | HasPath | HasCredentials | InvalidHost
    | WildcardInside | WildcardInLabel | WildcardTooBroad | WildcardInProduction
    | PublicUrlNotAbsolute | PublicUrlScheme | NoExactOrigin
  datatype Result<T> = Ok(value: T) | Error(error: OriginError)

  function SchemeText(protocol: Protocol): string {
    if protocol.Https? then "https:" else "http:"
  }

  predicate IsLoopback(hostname: string) {
    var lower := Lower(hostname);
    var inner := if lower != "" && lower[0] == '[' then lower[1..] else lower;
    var host := if inner != "" && inner[|inner| - 1] == ']' then inner[..|inner| - 1] else inner;
    host in ["localhost", "127.0.0.1", "::1", "[::1]"] || EndsWith(host, ".localhost") || StartsWith(host, "127.")
  }

  /** The leftmost label, whole, with two literal labels after it: None is no complaint. */
  function ValidateWildcard(hostname: string): Option<OriginError> {
    var labels := Split(hostname, '.');
    if exists i :: 1 <= i < |labels| && '*' in labels[i] then Some(WildcardInside)
    else if labels[0] != "*" then Some(WildcardInLabel)
    else if |labels| < 3 then Some(WildcardTooBroad)
    else None
  }

  predicate PathChar(c: char) {
    IsSpace(c) || c == '/' || c == '\\'
  }

  /** The scheme of an entry and what follows it; `^(https?):\/\/(.+)$` wants something to follow. */
  function SplitScheme(s: string): (Option<Protocol>, string) {
    if StartsWith(s, "https://") && |s| > 8 then (Some(Https), s[8..])
    else if StartsWith(s, "http://") && |s| > 7 then (Some(Http), s[7..])
    else (None, s)
  }

  function WithoutScheme(s: string): string {
    if StartsWith(s, "https://") then s[8..] else if StartsWith(s, "http://") then s[7..] else s
  }

  function ParseAuthority(authority: string, protocol: Option<Protocol>): (r: Result<OriginPattern>)
    ensures r.Error? ==> !r.error.NoExactOrigin?
  {
    var split := SplitHostPort(authority);
    if split.None? then Error(InvalidHost)
    else
      var hostname, port := Lower(split.value.hostname), split.value.port;
      if hostname == "." then Error(InvalidHost)
      else
        var wildcard := '*' in hostname;
        if wildcard && ValidateWildcard(hostname).Some? then Error(ValidateWildcard(hostname).value)
        else Ok(OriginPattern(hostname, if port.Some? then hostname + ":" + port.value else hostname, port, protocol,
                              wildcard, IsLoopback(hostname)))
  }

  function ParseOriginPattern(entry: string): (r: Result<OriginPattern>)
    ensures r.Error? ==> !r.error.NoExactOrigin?
  {
    var trimmed := Trim(entry);
    if trimmed == "" then Error(EmptyEntry)
    else if PathIn(WithoutScheme(trimmed)) then Error(HasPath)
    else if '@' in trimmed then Error(HasCredentials)
    else ParseAuthority(SplitScheme(trimmed).1, SplitScheme(trimmed).0)
  }

  /** What every parsed pattern is: its host spells its hostname and port, in lower case. */
  ghost predicate WellFormed(p: OriginPattern) {
    && Lower(p.host) == p.host && NoSpace(p.host)
    && SplitHostPort(p.host) == Some(HostPort(p.hostname, p.port))
    && Lower(p.hostname) == p.hostname
    && p.loopback == IsLoopback(p.hostname)
    && p.wildcard == ('*' in p.hostname) && (p.wildcard ==> ValidateWildcard(p.hostname).None?)
  }

  lemma LowerTwice(s: string)
    ensures Lower(Lower(s)) == Lower(s)
  {
  }

  lemma LowerSpace(c: char)
    ensures IsSpace(LowerChar(c)) == IsSpace(c)
  {
  }

  /** The host of a split authority is the authority in lower case. */
  lemma Respelled(authority: string)
    requires SplitHostPort(authority).Some?
    ensures var split := SplitHostPort(authority).value;
      Lower(authority) ==
        if split.port.Some? then Lower(split.hostname) + ":" + split.port.value else Lower(split.hostname)
  {
    var end := HostnameEnd(authority).value;
    if end < |authority| {
      assert authority[end] == ':' && DigitsFrom(authority, end + 1);
      LowerDigits(authority, end + 1);
      LowerPunctuation(authority[end], ':');
      assert Lower(authority) == Lower(authority)[..end] + [Lower(authority)[end]] + Lower(authority)[end + 1..];
      assert Lower(authority)[..end] == Lower(authority[..end]);
    }
  }

  lemma ParsedAuthority(authority: string, protocol: Option<Protocol>)
    requires ParseAuthority(authority, protocol).Ok? && NoSpace(authority)
    ensures WellFormed(ParseAuthority(authority, protocol).value)
    ensures ParseAuthority(authority, protocol).value.host == Lower(authority)
    ensures ParseAuthority(authority, protocol).value.protocol == protocol
  {
    Respelled(authority);
    LowerSplit(authority);
    LowerTwice(authority);
    LowerTwice(SplitHostPort(authority).value.hostname);
    forall i | 0 <= i < |authority| ensures !IsSpace(Lower(authority)[i]) { LowerSpace(authority[i]); }
  }

  predicate PathIn(s: string) {
    exists i :: 0 <= i < |s| && PathChar(s[i])
  }

  lemma NoPathNoSpace(trimmed: string)
    requires !PathIn(WithoutScheme(trimmed)) && SplitHostPort(SplitScheme(trimmed).1).Some?
    ensures NoSpace(SplitScheme(trimmed).1)
  {
    var rest := WithoutScheme(trimmed);
    forall i | 0 <= i < |rest| ensures !IsSpace(rest[i]) { assert !PathChar(rest[i]); }
    if trimmed == "https://" || trimmed == "http://" { BareScheme(trimmed); }
  }

  lemma ParsedIsWellFormed(entry: string)
    ensures ParseOriginPattern(entry).Ok? ==> WellFormed(ParseOriginPattern(entry).value)
  {
    if ParseOriginPattern(entry).Ok? {
      var split := SplitScheme(Trim(entry));
      NoPathNoSpace(Trim(entry));
      ParsedAuthority(split.1, split.0);
    }
  }

  lemma BareScheme(s: string)
    requires s == "https://" || s == "http://"
    ensures SplitHostPort(s).None?
  {
    FindIs(s, ':', |s| - 3);
    assert s[|s| - 2] == '/' && !Digit(s[|s| - 2]);
  }

  // Matching

  predicate MatchesHostname(candidate: string, p: OriginPattern) {
    var hostname := Lower(Trim(candidate));
    && hostname != ""
    && if !p.wildcard then p.hostname == hostname
       else
         var suffix := if p.hostname == "" then "" else p.hostname[1..];
         EndsWith(hostname, suffix) && |hostname| > |suffix|
  }

  /** A pattern that pins a port wants that port; one without takes any. */
  predicate MatchesPattern(candidate: string, p: OriginPattern) {
    var normalized := Lower(Trim(candidate));
    var split := SplitHostPort(normalized);
    && normalized != "" && split.Some?
    && (p.port.Some? ==> p.port == split.value.port) && MatchesHostname(split.value.hostname, p)
  }

  predicate Accepts(patterns: seq<OriginPattern>, candidate: string) {
    exists i :: 0 <= i < |patterns| && MatchesPattern(candidate, patterns[i])
  }

  lemma TrimNothing(s: string)
    requires NoSpace(s)
    ensures Trim(s) == s
  {
  }

  /** A hostname is on its own allowlist entry. */
  lemma OwnHostname(p: OriginPattern)
    requires WellFormed(p)
    ensures p.hostname != "" && NoSpace(p.hostname) && MatchesHostname(p.hostname, p)
  {
    var end := HostnameEnd(p.host).value;
    assert p.hostname == p.host[..end];
    TrimNothing(p.hostname);
  }

  /** So is a host, port and all. */
  lemma OwnHost(p: OriginPattern)
    requires WellFormed(p)
    ensures MatchesPattern(p.host, p)
  {
    TrimNothing(p.host);
    OwnHostname(p);
  }

  /** Without its port a host is accepted by exactly the entries that pin none. */
  lemma HostnameOnly(hostname: string, p: OriginPattern, q: OriginPattern)
    requires WellFormed(p) && hostname == p.hostname
    ensures MatchesPattern(hostname, q) <==> q.port.None? && MatchesHostname(hostname, q)
  {
    OwnHostname(p);
    TrimNothing(hostname);
    HostnameAlone(p.host);
  }

  // Duplicates

  /** The first pattern for a host, or the number of patterns. */
  function FirstFor(patterns: seq<OriginPattern>, host: string): (i: nat)
    ensures i <= |patterns| && (i < |patterns| ==> patterns[i].host == host)
    ensures forall j :: 0 <= j < i ==> patterns[j].host != host
  {
    if patterns == [] || patterns[0].host == host then 0 else 1 + FirstFor(patterns[1..], host)
  }

  predicate HttpAmong(patterns: seq<OriginPattern>, k: nat, host: string)
    requires k <= |patterns|
  {
    exists j :: 0 <= j < k && patterns[j].host == host && patterns[j].protocol == Some(Http)
  }

  /** The first of the first `k` entries for a host, plaintext if any of them says so. */
  function Merged(patterns: seq<OriginPattern>, k: nat, host: string): OriginPattern
    requires k <= |patterns| && FirstFor(patterns, host) < k
  {
    var first := patterns[FirstFor(patterns, host)];
    if HttpAmong(patterns, k, host) then first.(protocol := Some(Http)) else first
  }

  ghost predicate KeptAt(patterns: seq<OriginPattern>, k: nat, kept: seq<OriginPattern>, i: int)
    requires k <= |patterns|
  {
    0 <= i < |kept| ==> FirstFor(patterns, kept[i].host) < k && kept[i] == Merged(patterns, k, kept[i].host)
  }

  ghost predicate KeptInOrder(patterns: seq<OriginPattern>, kept: seq<OriginPattern>, i: int, j: int) {
    0 <= i < j < |kept| ==> FirstFor(patterns, kept[i].host) < FirstFor(patterns, kept[j].host)
  }

  ghost predicate HasHost(kept: seq<OriginPattern>, host: string) {
    exists i :: 0 <= i < |kept| && kept[i].host == host
  }

  /** One entry per host of the first `k`, in order of first appearance: that says what `kept` is. */
  ghost predicate Deduped(patterns: seq<OriginPattern>, k: nat, kept: seq<OriginPattern>) {
    && k <= |patterns|
    && (forall i: int {:trigger KeptAt(patterns, k, kept, i)} :: KeptAt(patterns, k, kept, i))
    && (forall i: int, j: int {:trigger KeptInOrder(patterns, kept, i, j)} :: KeptInOrder(patterns, kept, i, j))
    && (forall n: int {:trigger patterns[n]} :: 0 <= n < k ==> HasHost(kept, patterns[n].host))
  }

  /** What one more entry does. */
  function KeptWith(kept: seq<OriginPattern>, p: OriginPattern): seq<OriginPattern> {
    var i := FirstFor(kept, p.host);
    if i == |kept| then kept + [p]
    else if p.protocol == Some(Http) then kept[i := kept[i].(protocol := Some(Http))]
    else kept
  }

  lemma MergedNext(patterns: seq<OriginPattern>, k: nat, host: string)
    requires k < |patterns| && FirstFor(patterns, host) <= k
    ensures FirstFor(patterns, host) == k ==> Merged(patterns, k + 1, host) == patterns[k] && patterns[k].host == host
    ensures FirstFor(patterns, host) < k ==>
      Merged(patterns, k + 1, host) ==
        if patterns[k].host == host && patterns[k].protocol == Some(Http)
        then Merged(patterns, k, host).(protocol := Some(Http)) else Merged(patterns, k, host)
  {
    if HttpAmong(patterns, k, host) {
      var j :| 0 <= j < k && patterns[j].host == host && patterns[j].protocol == Some(Http);
      assert HttpAmong(patterns, k + 1, host);
    }
  }

  lemma KeptStays(patterns: seq<OriginPattern>, k: nat, kept: seq<OriginPattern>, i: int)
    requires k < |patterns| && Deduped(patterns, k, kept)
    ensures KeptAt(patterns, k + 1, KeptWith(kept, patterns[k]), i)
    ensures 0 <= i < |kept| ==> KeptWith(kept, patterns[k])[i].host == kept[i].host
  {
    var p, at := patterns[k], FirstFor(kept, patterns[k].host);
    if 0 <= i < |kept| {
      assert KeptAt(patterns, k, kept, i);
      MergedNext(patterns, k, kept[i].host);
      if at < |kept| && i != at {
        assert KeptAt(patterns, k, kept, at);
        assert KeptInOrder(patterns, kept, i, at) && KeptInOrder(patterns, kept, at, i);
      }
    } else if i == |kept| && at == |kept| {
      NewHost(patterns, k, kept);
      MergedNext(patterns, k, p.host);
    }
  }

  lemma NewHost(patterns: seq<OriginPattern>, k: nat, kept: seq<OriginPattern>)
    requires k < |patterns| && Deduped(patterns, k, kept) && FirstFor(kept, patterns[k].host) == |kept|
    ensures FirstFor(patterns, patterns[k].host) == k
  {
    forall n: int | 0 <= n < k ensures patterns[n].host != patterns[k].host {
      assert HasHost(kept, patterns[n].host);
      var i :| 0 <= i < |kept| && kept[i].host == patterns[n].host;
    }
  }

  lemma DedupeStep(patterns: seq<OriginPattern>, k: nat, kept: seq<OriginPattern>)
    requires k < |patterns| && Deduped(patterns, k, kept)
    ensures Deduped(patterns, k + 1, KeptWith(kept, patterns[k]))
  {
    var after, next := KeptWith(kept, patterns[k]), k + 1;
    forall i: int ensures KeptAt(patterns, next, after, i) { KeptStays(patterns, k, kept, i); }
    forall i: int, j: int ensures KeptInOrder(patterns, after, i, j) {
      KeptStays(patterns, k, kept, i);
      KeptStays(patterns, k, kept, j);
      assert KeptInOrder(patterns, kept, i, j) && KeptAt(patterns, k, kept, i);
      if j == |kept| < |after| { NewHost(patterns, k, kept); }
    }
    forall n: int | 0 <= n < next ensures HasHost(after, patterns[n].host) {
      if n < k {
        assert HasHost(kept, patterns[n].host);
        var i :| 0 <= i < |kept| && kept[i].host == patterns[n].host;
        KeptStays(patterns, k, kept, i);
        assert after[i].host == patterns[n].host;
      } else {
        var at := FirstFor(kept, patterns[k].host);
        assert after[at].host == patterns[k].host;
      }
    }
  }

  /** `dedupe` */
  method Dedupe(patterns: seq<OriginPattern>) returns (kept: seq<OriginPattern>)
    ensures Deduped(patterns, |patterns|, kept)
  {
    kept := [];
    for k := 0 to |patterns|
      invariant Deduped(patterns, k, kept)
    {
      DedupeStep(patterns, k, kept);
      var pattern := patterns[k];
      var existing := FirstFor(kept, pattern.host);
      if existing == |kept| {
        kept := kept + [pattern];
      } else if pattern.protocol == Some(Http) {
        kept := kept[existing := kept[existing].(protocol := Some(Http))];
      }
    }
  }

  /** Entries that spell one host differ in nothing that matching looks at. */
  lemma SameHostMatches(p: OriginPattern, q: OriginPattern, candidate: string)
    requires WellFormed(p) && WellFormed(q) && p.host == q.host
    ensures MatchesPattern(candidate, p) == MatchesPattern(candidate, q)
  {
  }

  ghost predicate AllWellFormed(patterns: seq<OriginPattern>) {
    forall i :: 0 <= i < |patterns| ==> WellFormed(patterns[i])
  }

  /** Deduplication leaves the accepted hosts as they were and keeps patterns well-formed. */
  lemma DedupeKeepsAccepted(patterns: seq<OriginPattern>, kept: seq<OriginPattern>, candidate: string)
    requires AllWellFormed(patterns) && Deduped(patterns, |patterns|, kept)
    ensures AllWellFormed(kept)
    ensures Accepts(kept, candidate) <==> Accepts(patterns, candidate)
  {
    forall i | 0 <= i < |kept|
      ensures WellFormed(kept[i])
      ensures MatchesPattern(candidate, kept[i]) ==> Accepts(patterns, candidate)
    {
      assert KeptAt(patterns, |patterns|, kept, i);
      SameHostMatches(kept[i], patterns[FirstFor(patterns, kept[i].host)], candidate);
    }
    forall n | 0 <= n < |patterns| && MatchesPattern(candidate, patterns[n]) ensures Accepts(kept, candidate) {
      assert HasHost(kept, patterns[n].host);
      var i :| 0 <= i < |kept| && kept[i].host == patterns[n].host;
      SameHostMatches(kept[i], patterns[n], candidate);
    }
  }

  ghost predicate AcceptsSame(after: seq<OriginPattern>, before: seq<OriginPattern>) {
    forall candidate: string {:trigger Accepts(after, candidate)} ::
      Accepts(after, candidate) <==> Accepts(before, candidate)
  }

  lemma DedupedAccepts(patterns: seq<OriginPattern>, kept: seq<OriginPattern>)
    requires AllWellFormed(patterns) && Deduped(patterns, |patterns|, kept)
    ensures AllWellFormed(kept) && (patterns != [] ==> kept != [])
    ensures AcceptsSame(kept, patterns)
  {
    forall candidate: string ensures Accepts(kept, candidate) <==> Accepts(patterns, candidate) {
      DedupeKeepsAccepted(patterns, kept, candidate);
    }
    DedupeKeepsAccepted(patterns, kept, "");
    if patterns != [] { assert HasHost(kept, patterns[0].host); }
  }

  /** One entry per host, and it is plaintext exactly when some entry for that host says so. */
  lemma PlaintextWins(patterns: seq<OriginPattern>, kept: seq<OriginPattern>, i: nat)
    requires Deduped(patterns, |patterns|, kept) && i < |kept|
    ensures forall j :: 0 <= j < |kept| && kept[j].host == kept[i].host ==> j == i
    ensures kept[i].protocol == Some(Http) <==>
      exists n :: 0 <= n < |patterns| && patterns[n].host == kept[i].host && patterns[n].protocol == Some(Http)
  {
    assert KeptAt(patterns, |patterns|, kept, i);
    forall j | 0 <= j < |kept| && kept[j].host == kept[i].host ensures j == i {
      assert KeptInOrder(patterns, kept, i, j) && KeptInOrder(patterns, kept, j, i);
    }
  }

  // Origins and URLs

  function EffectiveProtocol(p: OriginPattern, isProduction: bool): Protocol {
    if p.protocol.Some? then p.protocol.value
    else if p.loopback || !isProduction then Http
    else Https
  }

  function OriginOf(p: OriginPattern, isProduction: bool): string {
    SchemeText(EffectiveProtocol(p, isProduction)) + "//" + p.host
  }

  /** What is read of a parsed URL. */
  datatype Url = Url(protocol: string, host: string)

  predicate WebUrl(url: Url) {
    url.protocol == "http:" || url.protocol == "https:"
  }

  function UrlOrigin(url: Url): string {
    url.protocol + "//" + url.host
  }

  predicate PinsDefaultPort(host: string, protocol: Protocol) {
    && SplitHostPort(host).Some?
    && SplitHostPort(host).value.port == Some(if protocol.Https? then "443" else "80")
  }

  function WithoutDefaultPort(host: string, protocol: Protocol): string {
    if PinsDefaultPort(host, protocol) then SplitHostPort(host).value.hostname else host
  }

  /** A host that the URL parser keeps, but for its scheme's default port. */
  ghost predicate KeepsHost(parse: string -> Option<Url>, protocol: Protocol, host: string) {
    parse(SchemeText(protocol) + "//" + host) == Some(Url(SchemeText(protocol), WithoutDefaultPort(host, protocol)))
  }

  /** The host of a parsed web URL: lower case, no default port, nothing that cannot stand in a host. */
  ghost predicate ParsedHost(parse: string -> Option<Url>, url: Url) {
    && Lower(url.host) == url.host && SplitHostPort(url.host).Some? && !PathIn(url.host) && '@' !in url.host
    && parse(UrlOrigin(url)) == Some(url)
  }

  /** What is assumed of `new URL` (the WHATWG URL standard, sections 4.4 and 4.5): its origins parse to themselves. */
  ghost predicate UrlParser(parse: string -> Option<Url>) {
    forall text {:trigger parse(text)} :: parse(text).Some? && WebUrl(parse(text).value) ==>
      ParsedHost(parse, parse(text).value)
  }

  datatype Mode = Single | Multi | Inferred
  datatype AppOrigins = AppOrigins(patterns: seq<OriginPattern>, canonical: Option<string>, mode: Mode, allHttps: bool)

  predicate HasWebScheme(s: string) {
    StartsWith(Lower(s), "http://") || StartsWith(Lower(s), "https://")
  }

  predicate IsHostShaped(value: string) {
    var normalized := Lower(Trim(value));
    normalized != "" && !PathIn(normalized) && '@' !in normalized && SplitHostPort(normalized).Some?
  }

  predicate IsTrustedOrigin(o: AppOrigins, candidate: string, parse: string -> Option<Url>) {
    var trimmed := Trim(candidate);
    && trimmed != ""
    && (HasWebScheme(trimmed) ==> parse(trimmed).Some?)
    && var host := if HasWebScheme(trimmed) then parse(trimmed).value.host else trimmed;
       if o.mode.Inferred? then IsHostShaped(host) else Accepts(o.patterns, host)
  }

  datatype Environment = Environment(
    nextPhase: Option<string>, nodeEnv: Option<string>, appOrigins: Option<string>, publicBaseUrl: Option<string>,
    port: Option<string>)

  predicate IsProduction(env: Environment) {
    env.nodeEnv == Some("production") && env.nextPhase != Some("phase-production-build")
  }

  function Trimmed(value: Option<string>): string {
    if value.Some? then Trim(value.value) else ""
  }

  function ParsePublicBaseUrl(env: Environment, parse: string -> Option<Url>): (r: Result<Option<Url>>)
    ensures r.Error? ==> !r.error.NoExactOrigin?
    ensures r == Ok(None) <==> env.publicBaseUrl.None? || Trim(env.publicBaseUrl.value) == ""
    ensures r.Ok? && r.value.Some? ==>
      r.value == parse(Trim(env.publicBaseUrl.value)) && r.value.value.protocol in {"http:", "https:"}
    ensures r.Error? ==>
      var url := parse(Trim(env.publicBaseUrl.value));
      if url.None? then r.error == PublicUrlNotAbsolute
      else url.value.protocol !in {"http:", "https:"} && r.error == PublicUrlScheme
  {
    var configured := Trimmed(env.publicBaseUrl);
    if configured == "" then Ok(None)
    else if parse(configured).None? then Error(PublicUrlNotAbsolute)
    else if !WebUrl(parse(configured).value) then Error(PublicUrlScheme)
    else Ok(parse(configured))
  }

  /** The non-empty entries of a comma-separated list. */
  function Entries(parts: seq<string>): seq<string> {
    if parts == [] then []
    else (if Trim(parts[0]) == "" then [] else [Trim(parts[0])]) + Entries(parts[1..])
  }

  /** All entries parsed, or the first complaint. */
  function ParseAll(entries: seq<string>): (r: Result<seq<OriginPattern>>)
    ensures r.Ok? ==> AllWellFormed(r.value) && |r.value| == |entries|
    ensures r.Ok? && entries != [] ==> ParseOriginPattern(entries[0]) == Ok(r.value[0])
    ensures r.Error? ==> !r.error.NoExactOrigin?
  {
    if entries == [] then Ok([])
    else
      var first := ParseOriginPattern(entries[0]);
      if first.Error? then Error(first.error)
      else
        var rest := ParseAll(entries[1..]);
        if rest.Error? then rest
        else
          ParsedIsWellFormed(entries[0]);
          Ok([first.value] + rest.value)
  }

  function Listed(env: Environment): (r: Result<seq<OriginPattern>>)
    ensures r.Error? ==> !r.error.NoExactOrigin?
  {
    ParseAll(Entries(Split(Trimmed(env.appOrigins), ',')))
  }

  function LoopbackEntry(hostname: string, port: string): string {
    "http://" + (hostname + ":" + port)
  }

  function DefaultEntries(port: string): seq<string> {
    [LoopbackEntry("localhost", port), LoopbackEntry("127.0.0.1", port), LoopbackEntry("[::1]", port)]
  }

  function DevelopmentDefaults(env: Environment): (r: Result<seq<OriginPattern>>)
    ensures r.Error? ==> !r.error.NoExactOrigin?
  {
    var port := if Trimmed(env.port) == "" then "3000" else Trimmed(env.port);
    ParseAll(DefaultEntries(port))
  }

  lemma HttpsPrefix(rest: string)
    requires rest != ""
    ensures SplitScheme("https://" + rest) == (Some(Https), rest)
  {
    assert ("https://" + rest)[..8] == "https://";
  }

  lemma HttpPrefix(rest: string)
    requires rest != ""
    ensures SplitScheme("http://" + rest) == (Some(Http), rest)
  {
    var text := "http://" + rest;
    assert text[..7] == "http://";
    assert text[..8][4] == ':' && "https://"[4] == 's';
  }

  lemma OriginScheme(url: Url)
    requires WebUrl(url) && url.host != ""
    ensures SplitScheme(UrlOrigin(url)).1 == url.host
  {
    if url.protocol == "https:" {
      assert UrlOrigin(url) == "https://" + url.host;
      HttpsPrefix(url.host);
    } else {
      assert UrlOrigin(url) == "http://" + url.host;
      HttpPrefix(url.host);
    }
  }

  /** The pattern of a parsed URL's origin takes its host. */
  lemma OwnUrl(parse: string -> Option<Url>, url: Url)
    requires WebUrl(url) && ParsedHost(parse, url) && ParseOriginPattern(UrlOrigin(url)).Ok?
    ensures var p := ParseOriginPattern(UrlOrigin(url)).value;
      WellFormed(p) && p.host == url.host && MatchesPattern(url.host, p)
  {
    OriginHasNoSpace(url);
    TrimNothing(UrlOrigin(url));
    OriginScheme(url);
    NoPathNoSpace(UrlOrigin(url));
    ParsedAuthority(url.host, SplitScheme(UrlOrigin(url)).0);
    OwnHost(ParseOriginPattern(UrlOrigin(url)).value);
  }

  lemma OriginHasNoSpace(url: Url)
    requires WebUrl(url) && !PathIn(url.host)
    ensures NoSpace(UrlOrigin(url))
  {
    forall i | 0 <= i < |url.host| ensures !IsSpace(url.host[i]) { assert !PathChar(url.host[i]); }
  }

  /** The first exact entry, or the number of entries. */
  function FirstExact(patterns: seq<OriginPattern>): (i: nat)
    ensures i <= |patterns| && (i < |patterns| ==> !patterns[i].wildcard)
    ensures forall j :: 0 <= j < i ==> patterns[j].wildcard
  {
    if patterns == [] || !patterns[0].wildcard then 0 else 1 + FirstExact(patterns[1..])
  }

  /**
   An entry stands for https if it says so, or if it says nothing, is no loopback address and the
   environment is production; for http otherwise.
   */
  lemma OriginText(p: OriginPattern, isProduction: bool)
    ensures EffectiveProtocol(p, isProduction).Https? <==>
      p.protocol == Some(Https) || (p.protocol == None && !p.loopback && isProduction)
    ensures OriginOf(p, isProduction) ==
      if p.protocol == Some(Https) || (p.protocol == None && !p.loopback && isProduction)
      then "https://" + p.host else "http://" + p.host
  {
    assert "https:" + "//" == "https://" && "http:" + "//" == "http://";
  }

  /** What a resolution outside inferred mode promises. */
  ghost predicate Resolved(o: AppOrigins, url: Option<Url>, isProduction: bool) {
    && AllWellFormed(o.patterns)
    && (if url.Some? then o.canonical == Some(UrlOrigin(url.value)) && Accepts(o.patterns, url.value.host)
        else
          var exact := FirstExact(o.patterns);
          exact < |o.patterns| && o.canonical == Some(OriginOf(o.patterns[exact], isProduction)))
    && (if |o.patterns| == 1 && !o.patterns[0].wildcard then o.mode.Single? else o.mode.Multi?)
    && (o.allHttps <==> forall i :: 0 <= i < |o.patterns| ==>
          o.patterns[i].loopback || EffectiveProtocol(o.patterns[i], isProduction).Https?)
    // Production takes exact hosts only; the one entry that is added unchecked names the public URL.
    && (isProduction ==> forall i :: 0 <= i < |o.patterns| && o.patterns[i].wildcard ==>
          url.Some? && o.patterns[i].host == url.value.host)
  }

  /** The public URL's pattern joins the list only if nothing there accepts its host. */
  ghost predicate AcceptsAlso(after: seq<OriginPattern>, before: seq<OriginPattern>, url: Option<Url>,
          candidate: string) {
    Accepts(after, candidate) <==>
      || Accepts(before, candidate)
      || (url.Some? && !Accepts(before, url.value.host) && ParseOriginPattern(UrlOrigin(url.value)).Ok?
          && MatchesPattern(candidate, ParseOriginPattern(UrlOrigin(url.value)).value))
  }

  lemma AcceptsAppended(patterns: seq<OriginPattern>, p: OriginPattern, candidate: string)
    ensures Accepts(patterns + [p], candidate) <==> Accepts(patterns, candidate) || MatchesPattern(candidate, p)
  {
    if Accepts(patterns, candidate) {
      var i :| 0 <= i < |patterns| && MatchesPattern(candidate, patterns[i]);
      assert (patterns + [p])[i] == patterns[i];
    }
    if MatchesPattern(candidate, p) { assert (patterns + [p])[|patterns|] == p; }
  }

  /** What is configured, and outside production what is always allowed. */
  ghost function Configured(env: Environment): seq<OriginPattern>
    requires Listed(env).Ok?
  {
    if IsProduction(env) || DevelopmentDefaults(env).Error? then Listed(env).value
    else DevelopmentDefaults(env).value + Listed(env).value
  }

  /** What the environment names, and outside production the loopback defaults. */
  lemma ConfiguredExactly(env: Environment, candidate: string)
    requires Listed(env).Ok? && (IsProduction(env) || DevelopmentDefaults(env).Ok?)
    ensures Accepts(Configured(env), candidate) <==>
      || (exists i :: 0 <= i < |Listed(env).value| && MatchesPattern(candidate, Listed(env).value[i]))
      || (&& !(env.nodeEnv == Some("production") && env.nextPhase != Some("phase-production-build"))
          && Accepts(DevelopmentDefaults(env).value, candidate))
  {
    if !IsProduction(env) { AcceptsEither(DevelopmentDefaults(env).value, Listed(env).value, candidate); }
  }

  lemma AcceptsEither(first: seq<OriginPattern>, second: seq<OriginPattern>, candidate: string)
    ensures Accepts(first + second, candidate) <==> Accepts(first, candidate) || Accepts(second, candidate)
  {
    var all := first + second;
    forall i | 0 <= i < |first| && MatchesPattern(candidate, first[i]) ensures Accepts(all, candidate) {
      assert all[i] == first[i];
    }
    forall i | 0 <= i < |second| && MatchesPattern(candidate, second[i]) ensures Accepts(all, candidate) {
      assert all[|first| + i] == second[i];
    }
  }

  ghost predicate AcceptsAll(after: seq<OriginPattern>, before: seq<OriginPattern>, url: Option<Url>) {
    forall candidate: string {:trigger Accepts(after, candidate)} :: AcceptsAlso(after, before, url, candidate)
  }

  lemma {:induction false} TrimEndKeeps(s: string, i: nat)
    requires i < |s| && !IsSpace(s[i])
    ensures i < |TrimEnd(s)| <= |s| && TrimEnd(s) == s[..|TrimEnd(s)|]
  {
    if IsSpace(s[|s| - 1]) {
      TrimEndKeeps(s[..|s| - 1], i);
    } else {
      assert s == s[..|s|];
    }
  }

  /** However a port is spelled, an entry that parses and starts like this is for `localhost`. */
  lemma LocalhostIsExact(port: string)
    ensures
      var r := ParseOriginPattern("http://localhost:" + port);
      r.Ok? ==> r.value.hostname == Lower("localhost") && !r.value.wildcard
  {
    var rest := LocalhostTrimmed(port);
    HttpPrefix(rest);
    LocalhostSplits(rest, port);
    LocalhostHasNoStar();
  }

  lemma LocalhostTrimmed(port: string) returns (rest: string)
    ensures 10 <= |rest| <= 10 + |port| && rest == ("localhost:" + port)[..|rest|]
    ensures Trim("http://localhost:" + port) == "http://" + rest
  {
    var entry, host := "http://localhost:" + port, "localhost:" + port;
    assert entry == "http://" + host && entry[16] == ':' && TrimStart(entry) == entry;
    TrimEndKeeps(entry, 16);
    rest := host[..|Trim(entry)| - 7];
    assert Trim(entry) == "http://" + rest;
  }

  lemma LocalhostHasNoStar()
    ensures '*' !in Lower("localhost")
  {
    forall i | 0 <= i < 9 ensures Lower("localhost")[i] != '*' { LowerPunctuation("localhost"[i], '*'); }
  }

  lemma LocalhostSplits(rest: string, port: string)
    requires 10 <= |rest| <= 10 + |port| && rest == ("localhost:" + port)[..|rest|]
    ensures SplitHostPort(rest).Some? ==> SplitHostPort(rest).value.hostname == "localhost"
  {
    forall j | 0 <= j < 9 ensures rest[j] == "localhost"[j] { assert ("localhost:" + port)[j] == "localhost:"[j]; }
    assert rest[9] == ("localhost:" + port)[9] == ':';
    FindIs(rest, ':', 9);
    assert rest[..9] == "localhost";
  }

  lemma HasExact(patterns: seq<OriginPattern>, i: nat)
    requires i < |patterns| && !patterns[i].wildcard
    ensures FirstExact(patterns) < |patterns|
  {
  }

  lemma FirstDefaultIsExact(env: Environment)
    requires DevelopmentDefaults(env).Ok?
    ensures DevelopmentDefaults(env).value != [] && !DevelopmentDefaults(env).value[0].wildcard
  {
    var port := if Trimmed(env.port) == "" then "3000" else Trimmed(env.port);
    LocalhostIsExact(port);
    LocalhostFirst(port);
    FirstIsParsed(DefaultEntries(port));
    LocalhostHasNoStar();
  }

  lemma LocalhostFirst(port: string)
    ensures DefaultEntries(port) != [] && DefaultEntries(port)[0] == "http://localhost:" + port
  {
  }

  lemma FirstIsParsed(entries: seq<string>)
    requires entries != [] && ParseAll(entries).Ok?
    ensures ParseAll(entries).value != [] && ParseOriginPattern(entries[0]) == Ok(ParseAll(entries).value[0])
  {
  }

  /** The loopback defaults name an address, so a list that holds them always does. */
  lemma DefaultsAreExact(env: Environment, kept: seq<OriginPattern>)
    requires Listed(env).Ok? && DevelopmentDefaults(env).Ok?
    requires var all := DevelopmentDefaults(env).value + Listed(env).value; Deduped(all, |all|, kept)
    ensures FirstExact(kept) < |kept|
  {
    var all := DevelopmentDefaults(env).value + Listed(env).value;
    FirstDefaultIsExact(env);
    DedupedAccepts(all, kept);
    assert HasHost(kept, all[0].host);
    var i :| 0 <= i < |kept| && kept[i].host == all[0].host;
    assert WellFormed(kept[i]) && WellFormed(all[0]);
    HasExact(kept, i);
  }

  /** The list for the environment: as configured, and outside production behind the loopback defaults. */
  method Patterns(env: Environment) returns (r: Result<seq<OriginPattern>>)
    requires Listed(env).Ok?
    ensures IsProduction(env) ==> r == Listed(env)
    ensures !IsProduction(env) && DevelopmentDefaults(env).Error? ==> r == DevelopmentDefaults(env)
    ensures !IsProduction(env) && DevelopmentDefaults(env).Ok? ==> r.Ok? && FirstExact(r.value) < |r.value|
    ensures r.Ok? ==> AllWellFormed(r.value) && AcceptsSame(r.value, Configured(env))
  {
    if IsProduction(env) { return Listed(env); }
    var defaults := DevelopmentDefaults(env);
    if defaults.Error? { return defaults; }
    var all := defaults.value + Listed(env).value;
    var kept := Dedupe(all);
    DedupedAccepts(all, kept);
    DefaultsAreExact(env, kept);
    return Ok(kept);
  }

  /** With the public URL's pattern where it is missing, that URL's host is accepted. */
  lemma UrlJoins(parse: string -> Option<Url>, configured: seq<OriginPattern>, patterns: seq<OriginPattern>, url: Url)
    requires WebUrl(url) && ParsedHost(parse, url) && AllWellFormed(patterns) && AcceptsSame(patterns, configured)
    requires !Accepts(patterns, url.host) && ParseOriginPattern(UrlOrigin(url)).Ok?
    ensures var p := ParseOriginPattern(UrlOrigin(url)).value;
      && p.host == url.host && AllWellFormed(patterns + [p]) && Accepts(patterns + [p], url.host)
      && AcceptsAll(patterns + [p], configured, Some(url))
  {
    var p := ParseOriginPattern(UrlOrigin(url)).value;
    OwnUrl(parse, url);
    var after := patterns + [p];
    forall candidate: string
      ensures Accepts(after, candidate) <==> Accepts(patterns, candidate) || MatchesPattern(candidate, p)
    {
      AcceptsAppended(patterns, p, candidate);
    }
    assert Accepts(patterns, url.host) <==> Accepts(configured, url.host);
    forall candidate: string ensures AcceptsAlso(after, configured, Some(url), candidate) {
      assert Accepts(patterns, candidate) <==> Accepts(configured, candidate);
    }
  }

  lemma UrlIsThere(configured: seq<OriginPattern>, patterns: seq<OriginPattern>, url: Option<Url>)
    requires AcceptsSame(patterns, configured) && (url.Some? ==> Accepts(patterns, url.value.host))
    ensures AcceptsAll(patterns, configured, url)
  {
    if url.Some? { assert Accepts(patterns, url.value.host) <==> Accepts(configured, url.value.host); }
    forall candidate: string ensures AcceptsAlso(patterns, configured, url, candidate) {
      assert Accepts(patterns, candidate) <==> Accepts(configured, candidate);
    }
  }

  predicate HasWildcard(patterns: seq<OriginPattern>) {
    exists i :: 0 <= i < |patterns| && patterns[i].wildcard
  }

  /** Why a list is refused: a wildcard in production, or a public URL that has to join it and is no pattern. */
  ghost function ListRefusal(env: Environment, url: Option<Url>): (r: Option<OriginError>)
    requires Listed(env).Ok?
    ensures r != Some(NoExactOrigin)
  {
    if IsProduction(env) && HasWildcard(Listed(env).value) then Some(WildcardInProduction)
    else if url.None? || Accepts(Configured(env), url.value.host) then None
    else
      var own := ParseOriginPattern(UrlOrigin(url.value));
      if own.Error? then Some(own.error)
      else if IsProduction(env) && Listed(env).value == [] && own.value.wildcard then Some(WildcardInProduction)
      else None
  }

  /** What the final list promises. */
  ghost predicate ListOk(env: Environment, url: Option<Url>, patterns: seq<OriginPattern>)
    requires Listed(env).Ok?
  {
    && AllWellFormed(patterns) && AcceptsAll(patterns, Configured(env), url)
    && (url.Some? ==> Accepts(patterns, url.value.host))
    && (IsProduction(env) ==> OnlyOwnWildcard(patterns, url))
  }

  /** The one wildcard that production may meet is the unchecked pattern of the public URL itself. */
  ghost predicate OnlyOwnWildcard(patterns: seq<OriginPattern>, url: Option<Url>) {
    forall i :: 0 <= i < |patterns| && patterns[i].wildcard ==> url.Some? && patterns[i].host == url.value.host
  }

  lemma SameAcceptance(a: seq<OriginPattern>, b: seq<OriginPattern>, candidate: string)
    requires AcceptsSame(a, b)
    ensures Accepts(a, candidate) <==> Accepts(b, candidate)
  {
  }

  lemma ListStays(env: Environment, listed: seq<OriginPattern>, url: Option<Url>)
    requires Listed(env).Ok? && AllWellFormed(listed) && AcceptsSame(listed, Configured(env))
    requires (url.Some? ==> Accepts(listed, url.value.host)) && (IsProduction(env) ==> !HasWildcard(listed))
    ensures ListOk(env, url, listed)
  {
    UrlIsThere(Configured(env), listed, url);
  }

  lemma ListJoins(parse: string -> Option<Url>, env: Environment, listed: seq<OriginPattern>, url: Url)
    requires Listed(env).Ok? && AllWellFormed(listed) && AcceptsSame(listed, Configured(env))
    requires !Accepts(listed, url.host) && (IsProduction(env) ==> !HasWildcard(listed))
    requires WebUrl(url) && ParsedHost(parse, url) && ParseOriginPattern(UrlOrigin(url)).Ok?
    ensures
      var own := ParseOriginPattern(UrlOrigin(url)).value;
      ListOk(env, Some(url), listed + [own]) && MatchesPattern(url.host, own)
  {
    OwnUrl(parse, url);
    UrlJoins(parse, Configured(env), listed, url);
    if IsProduction(env) { OwnWildcardOnly(listed, ParseOriginPattern(UrlOrigin(url)).value, url); }
  }

  lemma OwnWildcardOnly(listed: seq<OriginPattern>, own: OriginPattern, url: Url)
    requires !HasWildcard(listed) && own.host == url.host
    ensures OnlyOwnWildcard(listed + [own], Some(url))
  {
    forall i | 0 <= i < |listed| ensures !listed[i].wildcard {}
  }

  lemma OwnListIsOk(parse: string -> Option<Url>, env: Environment, url: Url)
    requires Listed(env).Ok? && AcceptsSame([], Configured(env))
    requires WebUrl(url) && ParsedHost(parse, url) && ParseOriginPattern(UrlOrigin(url)).Ok?
    ensures
      var own := ParseOriginPattern(UrlOrigin(url)).value;
      ListOk(env, Some(url), [own]) && Accepts([own], url.host)
  {
    ListJoins(parse, env, [], url);
    assert [] + [ParseOriginPattern(UrlOrigin(url)).value] == [ParseOriginPattern(UrlOrigin(url)).value];
  }

  /** The public URL's own pattern joins a list that does not accept that URL's host. */
  method Joined(parse: string -> Option<Url>, env: Environment, patterns: seq<OriginPattern>, url: Url)
    returns (r: Result<seq<OriginPattern>>)
    requires Listed(env).Ok? && AllWellFormed(patterns) && AcceptsSame(patterns, Configured(env))
    requires WebUrl(url) && ParsedHost(parse, url) && (IsProduction(env) ==> !HasWildcard(patterns))
    requires !Accepts(patterns, url.host)
    ensures
      var own := ParseOriginPattern(UrlOrigin(url));
      r == if own.Error? then Error(own.error) else Ok(patterns + [own.value])
    ensures r.Ok? ==> ListOk(env, Some(url), r.value)
  {
    var own := ParseOriginPattern(UrlOrigin(url));
    if own.Error? { return Error(own.error); }
    ListJoins(parse, env, patterns, url);
    return Ok(patterns + [own.value]);
  }

  /** The list with the public URL's own pattern, if nothing on it accepts that URL's host. */
  method WithPublicUrl(parse: string -> Option<Url>, env: Environment, listed: seq<OriginPattern>, url: Option<Url>)
    returns (r: Result<seq<OriginPattern>>)
    requires Listed(env).Ok? && AllWellFormed(listed) && AcceptsSame(listed, Configured(env))
    requires if IsProduction(env) then listed == Listed(env).value else listed != []
    requires url.Some? ==> WebUrl(url.value) && ParsedHost(parse, url.value)
    ensures ListRefusal(env, url).Some? ==> r == Error(ListRefusal(env, url).value)
    ensures ListRefusal(env, url).None? ==> r.Ok?
    ensures r.Ok? ==> ListOk(env, url, r.value)
    ensures r.Ok? && (url.None? || Accepts(listed, url.value.host)) ==> r.value == listed
  {
    if url.Some? { SameAcceptance(listed, Configured(env), url.value.host); }
    var patterns := listed;
    if patterns == [] && url.Some? {
      var own := ParseOriginPattern(UrlOrigin(url.value));
      if own.Error? { return Error(own.error); }
      OwnListIsOk(parse, env, url.value);
      patterns := [own.value];
    }
    if IsProduction(env) && HasWildcard(patterns) {
      return Error(WildcardInProduction);
    }
    if url.None? || Accepts(patterns, url.value.host) {
      if patterns == listed { ListStays(env, patterns, url); }
      return Ok(patterns);
    }
    r := Joined(parse, env, patterns, url.value);
  }

  // The canonical origin on its own allowlist

  lemma OriginShape(protocol: Protocol, host: string)
    requires NoSpace(host)
    ensures var origin := SchemeText(protocol) + "//" + host;
      origin != "" && Trim(origin) == origin && HasWebScheme(origin)
  {
    var origin := SchemeText(protocol) + "//" + host;
    TrimNothing(origin);
    var n := if protocol.Https? then 8 else 7;
    assert Lower(origin)[..n] == if protocol.Https? then "https://" else "http://";
  }

  lemma UrlIsWebText(url: Url)
    requires WebUrl(url)
    ensures exists protocol :: url.protocol == SchemeText(protocol)
  {
    assert url.protocol == SchemeText(if url.protocol == "https:" then Https else Http);
  }

  /** A port, and that of the scheme: 443 for https and 80 for http. */
  lemma PinsExactly(hostname: string, port: Option<string>, protocol: Protocol)
    requires HostnameText(hostname) && PortText(port)
    ensures PinsDefaultPort(hostname + (if port.Some? then ":" + port.value else ""), protocol) <==>
      port == Some(if protocol == Https then "443" else "80")
  {
    SplitsExactly(hostname + (if port.Some? then ":" + port.value else ""), hostname, port);
  }

  /** Some entry takes the exact entry's hostname whatever the port. */
  ghost predicate AnyPortAccepted(patterns: seq<OriginPattern>, hostname: string) {
    exists i :: 0 <= i < |patterns| && patterns[i].port.None? && MatchesHostname(hostname, patterns[i])
  }

  /** Which host remains of an origin whose entry is `p`, and what accepts it. */
  lemma RemainingHost(patterns: seq<OriginPattern>, p: OriginPattern, protocol: Protocol)
    requires WellFormed(p) && p in patterns
    ensures Accepts(patterns, WithoutDefaultPort(p.host, protocol)) <==>
      !PinsDefaultPort(p.host, protocol) || AnyPortAccepted(patterns, p.hostname)
  {
    if PinsDefaultPort(p.host, protocol) {
      forall i | 0 <= i < |patterns|
        ensures MatchesPattern(p.hostname, patterns[i]) <==>
          patterns[i].port.None? && MatchesHostname(p.hostname, patterns[i])
      {
        HostnameOnly(p.hostname, p, patterns[i]);
      }
    } else {
      OwnHost(p);
    }
  }

  /**
   The canonical origin is trusted when it is the public URL's. One taken from the list, with a host
   that the URL parser keeps, is trusted exactly when it does not pin its scheme's default port,
   which the URL parser drops, or another entry takes its hostname at any port.
   */
  ghost predicate TrustsItself(o: AppOrigins, url: Option<Url>, isProduction: bool, parse: string -> Option<Url>)
    requires Resolved(o, url, isProduction)
  {
    if url.Some? then IsTrustedOrigin(o, o.canonical.value, parse)
    else
      var p := o.patterns[FirstExact(o.patterns)];
      var protocol := EffectiveProtocol(p, isProduction);
      KeepsHost(parse, protocol, p.host) ==>
        (IsTrustedOrigin(o, o.canonical.value, parse) <==>
           !PinsDefaultPort(p.host, protocol) || AnyPortAccepted(o.patterns, p.hostname))
  }

  lemma CanonicalIsTrusted(o: AppOrigins, url: Option<Url>, isProduction: bool, parse: string -> Option<Url>)
    requires Resolved(o, url, isProduction)
    requires url.Some? ==> WebUrl(url.value) && ParsedHost(parse, url.value)
    ensures TrustsItself(o, url, isProduction, parse)
  {
    if url.Some? {
      UrlIsWebText(url.value);
      var protocol :| url.value.protocol == SchemeText(protocol);
      forall i | 0 <= i < |url.value.host| ensures !IsSpace(url.value.host[i]) { assert !PathChar(url.value.host[i]); }
      OriginShape(protocol, url.value.host);
    } else {
      var p := o.patterns[FirstExact(o.patterns)];
      OriginShape(EffectiveProtocol(p, isProduction), p.host);
      RemainingHost(o.patterns, p, EffectiveProtocol(p, isProduction));
    }
  }

  /** What is read off the final list: the canonical origin, the mode and whether all is https. */
  function Described(patterns: seq<OriginPattern>, url: Option<Url>, isProduction: bool): AppOrigins
    requires url.Some? || FirstExact(patterns) < |patterns|
  {
    AppOrigins(
      patterns,
      Some(if url.Some? then UrlOrigin(url.value) else OriginOf(patterns[FirstExact(patterns)], isProduction)),
      if |patterns| == 1 && !patterns[0].wildcard then Single else Multi,
      forall i :: 0 <= i < |patterns| ==> patterns[i].loopback || EffectiveProtocol(patterns[i], isProduction).Https?)
  }

  lemma DescribedResolves(patterns: seq<OriginPattern>, url: Option<Url>, isProduction: bool,
          parse: string -> Option<Url>)
    requires AllWellFormed(patterns) && (url.Some? || FirstExact(patterns) < |patterns|)
    requires url.Some? ==> WebUrl(url.value) && ParsedHost(parse, url.value) && Accepts(patterns, url.value.host)
    requires isProduction ==> OnlyOwnWildcard(patterns, url)
    ensures
      var o := Described(patterns, url, isProduction);
      Resolved(o, url, isProduction) && TrustsItself(o, url, isProduction, parse)
  {
    CanonicalIsTrusted(Described(patterns, url, isProduction), url, isProduction, parse);
  }

  /** Production with nothing configured: every request names its own host. */
  ghost predicate NothingConfigured(env: Environment, parse: string -> Option<Url>) {
    IsProduction(env) && Listed(env) == Ok([]) && ParsePublicBaseUrl(env, parse) == Ok(None)
  }

  /**
   The first complaint about an environment, in the source's order; None when it is resolved. It is
   never the want of an exact origin: the source's last check cannot fail.
   */
  ghost function Refusal(env: Environment, parse: string -> Option<Url>): (r: Option<OriginError>)
    ensures r != Some(NoExactOrigin)
  {
    var public, listed := ParsePublicBaseUrl(env, parse), Listed(env);
    if public.Error? then Some(public.error)
    else if listed.Error? then Some(listed.error)
    else if NothingConfigured(env, parse) then None
    else if !IsProduction(env) && DevelopmentDefaults(env).Error? then Some(DevelopmentDefaults(env).error)
    else ListRefusal(env, public.value)
  }

  /** A list without a public URL that is not refused names an address. */
  lemma ExactIsThere(env: Environment, parse: string -> Option<Url>, patterns: seq<OriginPattern>)
    requires Listed(env).Ok? && ParsePublicBaseUrl(env, parse) == Ok(None) && !NothingConfigured(env, parse)
    requires IsProduction(env) ==> patterns == Listed(env).value && ListRefusal(env, None).None?
    requires !IsProduction(env) ==> FirstExact(patterns) < |patterns|
    ensures FirstExact(patterns) < |patterns|
  {
    if IsProduction(env) { HasExact(patterns, 0); }
  }

  /** `resolveAppOrigins` */
  method ResolveAppOrigins(env: Environment, parse: string -> Option<Url>) returns (r: Result<AppOrigins>)
    requires UrlParser(parse)
    ensures r.Error? <==> Refusal(env, parse).Some?
    ensures r.Error? ==> r.error == Refusal(env, parse).value && !r.error.NoExactOrigin?
    ensures (r.Ok? && r.value.mode.Inferred?) <==>
      && env.nodeEnv == Some("production") && env.nextPhase != Some("phase-production-build")
      && Listed(env) == Ok([]) && ParsePublicBaseUrl(env, parse) == Ok(None)
    ensures r.Ok? && IsProduction(env) && ParsePublicBaseUrl(env, parse).value.None? ==>
      Listed(env) == Ok(r.value.patterns)
    ensures r.Ok? && r.value.mode.Inferred? ==> r.value == AppOrigins([], None, Inferred, false)
    ensures r.Ok? && !r.value.mode.Inferred? ==>
      && Resolved(r.value, ParsePublicBaseUrl(env, parse).value, IsProduction(env))
      && AcceptsAll(r.value.patterns, Configured(env), ParsePublicBaseUrl(env, parse).value)
      && TrustsItself(r.value, ParsePublicBaseUrl(env, parse).value, IsProduction(env), parse)
  {
    var public := ParsePublicBaseUrl(env, parse);
    if public.Error? { return Error(public.error); }
    var url := public.value;
    var listed := Listed(env);
    if listed.Error? { return Error(listed.error); }
    if IsProduction(env) && listed.value == [] && url.None? {
      return Ok(AppOrigins([], None, Inferred, false));
    }
    var base := Patterns(env);
    if base.Error? { return Error(base.error); }
    var patterns := WithPublicUrl(parse, env, base.value, url);
    if patterns.Error? { return Error(patterns.error); }
    if url.None? { ExactIsThere(env, parse, patterns.value); }
    if FirstExact(patterns.value) == |patterns.value| && url.None? { return Error(NoExactOrigin); }
    DescribedResolves(patterns.value, url, IsProduction(env), parse);
    return Ok(Described(patterns.value, url, IsProduction(env)));
  }

  /** The first complaints: the public URL's, then the list's, then outside production the loopback defaults'. */
  lemma RefusalInOrder(env: Environment, parse: string -> Option<Url>)
    ensures ParsePublicBaseUrl(env, parse).Error? ==>
      Refusal(env, parse) == Some(ParsePublicBaseUrl(env, parse).error)
    ensures ParsePublicBaseUrl(env, parse).Ok? && Listed(env).Error? ==> Refusal(env, parse) == Some(Listed(env).error)
    ensures
      (&& ParsePublicBaseUrl(env, parse).Ok? && Listed(env).Ok? && !IsProduction(env)
       && DevelopmentDefaults(env).Error?) ==> Refusal(env, parse) == Some(DevelopmentDefaults(env).error)
  {
  }

  /** Then, in production, any listed wildcard; without a public URL that is all. */
  lemma RefusalOfList(env: Environment, parse: string -> Option<Url>)
    requires Listed(env).Ok? && ParsePublicBaseUrl(env, parse) == Ok(None)
    requires IsProduction(env) || DevelopmentDefaults(env).Ok?
    ensures Refusal(env, parse) ==
      if IsProduction(env) && exists i :: 0 <= i < |Listed(env).value| && Listed(env).value[i].wildcard
      then Some(WildcardInProduction) else None
  {
  }

  /** With a public URL: also one that is on no list and does not parse as an entry. */
  lemma RefusalOfUrl(env: Environment, parse: string -> Option<Url>, url: Url)
    requires Listed(env).Ok? && ParsePublicBaseUrl(env, parse) == Ok(Some(url))
    requires IsProduction(env) && Listed(env).value != []
    ensures Refusal(env, parse) ==
      if exists i :: 0 <= i < |Listed(env).value| && Listed(env).value[i].wildcard then Some(WildcardInProduction)
      else if exists i :: 0 <= i < |Listed(env).value| && MatchesPattern(url.host, Listed(env).value[i]) then None
      else if ParseOriginPattern(UrlOrigin(url)).Error? then Some(ParseOriginPattern(UrlOrigin(url)).error)
      else None
  {
  }

  lemma SolePinnedEntry(p: OriginPattern, parse: string -> Option<Url>)
    requires WellFormed(p) && !p.wildcard && p.protocol == Some(Https) && PinsDefaultPort(p.host, Https)
    requires KeepsHost(parse, Https, p.host)
    ensures
      var o := AppOrigins([p], Some(OriginOf(p, true)), Single, true);
      Resolved(o, None, true) && !IsTrustedOrigin(o, o.canonical.value, parse)
  {
    var o := AppOrigins([p], Some(OriginOf(p, true)), Single, true);
    assert FirstExact(o.patterns) == 0;
    CanonicalIsTrusted(o, None, true, parse);
  }

  lemma PlainHostParses(host: string, hostname: string, port: string)
    requires NoSpace(host) && !PathIn(host) && '@' !in host
    requires SplitHostPort(host) == Some(HostPort(hostname, Some(port)))
    requires Lower(hostname) == hostname && hostname != "." && '*' !in hostname
    ensures ParseOriginPattern("https://" + host) ==
      Ok(OriginPattern(hostname, hostname + ":" + port, Some(port), Some(Https), false, IsLoopback(hostname)))
  {
    var entry := "https://" + host;
    forall i | 0 <= i < |entry| ensures !IsSpace(entry[i]) && entry[i] != '@' {
      assert entry[i] == if i < 8 then "https://"[i] else host[i - 8];
    }
    TrimNothing(entry);
    HttpsPrefix(host);
    assert WithoutScheme(entry) == host;
  }

  /** An `https` entry that pins port 443, alone on the list. */
  ghost predicate PinnedEntry(host: string, hostname: string) {
    && SplitHostPort(host) == Some(HostPort(hostname, Some("443"))) && host == hostname + ":" + "443"
    && NoSpace(host) && !PathIn(host) && '@' !in host
    && Lower(hostname) == hostname && hostname != "." && '*' !in hostname
  }

  lemma PinnedDefaultPort(parse: string -> Option<Url>, host: string, hostname: string)
    requires PinnedEntry(host, hostname) && KeepsHost(parse, Https, host)
    ensures
      var p := OriginPattern(hostname, host, Some("443"), Some(Https), false, IsLoopback(hostname));
      var o := AppOrigins([p], Some("https://" + host), Single, true);
      && ParseOriginPattern("https://" + host) == Ok(p)
      && Resolved(o, None, true) && !IsTrustedOrigin(o, o.canonical.value, parse)
  {
    PlainHostParses(host, hostname, "443");
    ParsedIsWellFormed("https://" + host);
    assert "https:" + "//" == "https://";
    SolePinnedEntry(ParseOriginPattern("https://" + host).value, parse);
  }

  lemma OneEntry(entry: string)
    requires NoSpace(entry) && ',' !in entry && entry != ""
    ensures Entries(Split(Trim(entry), ',')) == [entry]
  {
    TrimNothing(entry);
    FindIs(entry, ',', |entry|);
    assert Entries([entry]) == [entry] + Entries([]);
  }

  lemma OnePattern(entry: string, p: OriginPattern)
    requires ParseOriginPattern(entry) == Ok(p)
    ensures ParseAll([entry]) == Ok([p])
  {
    FirstAndRest([entry]);
    assert [entry][1..] == [];
    assert [p] + [] == [p];
  }

  lemma FirstAndRest(entries: seq<string>)
    requires entries != [] && ParseOriginPattern(entries[0]).Ok? && ParseAll(entries[1..]).Ok?
    ensures ParseAll(entries) == Ok([ParseOriginPattern(entries[0]).value] + ParseAll(entries[1..]).value)
  {
  }

  lemma PinnedIsListed(env: Environment, host: string, hostname: string)
    requires PinnedEntry(host, hostname) && ',' !in host && env.appOrigins == Some("https://" + host)
    ensures Listed(env) == Ok([OriginPattern(hostname, host, Some("443"), Some(Https), false, IsLoopback(hostname))])
  {
    var entry := "https://" + host;
    forall i | 0 <= i < |entry| ensures !IsSpace(entry[i]) && entry[i] != ',' {
      assert entry[i] == if i < 8 then "https://"[i] else host[i - 8];
    }
    OneEntry(entry);
    PlainHostParses(host, hostname, "443");
    OnePattern(entry, OriginPattern(hostname, host, Some("443"), Some(Https), false, IsLoopback(hostname)));
  }

  /** An environment that lists one such entry is resolved. */
  lemma PinnedIsConfigured(env: Environment, parse: string -> Option<Url>, p: OriginPattern)
    requires IsProduction(env) && Trimmed(env.publicBaseUrl) == "" && Listed(env) == Ok([p]) && !p.wildcard
    ensures ParsePublicBaseUrl(env, parse) == Ok(None)
    ensures Refusal(env, parse).None? && !NothingConfigured(env, parse)
  {
    assert !HasWildcard([p]);
  }

  /** In production, with no public URL, the result for such a list does not trust its own canonical origin. */
  method PinnedInProduction(env: Environment, parse: string -> Option<Url>, host: string, hostname: string)
    returns (r: Result<AppOrigins>)
    requires UrlParser(parse) && KeepsHost(parse, Https, host) && PinnedEntry(host, hostname) && ',' !in host
    requires IsProduction(env) && env.appOrigins == Some("https://" + host) && Trimmed(env.publicBaseUrl) == ""
    ensures r.Ok? && r.value.canonical == Some("https://" + host) && r.value.mode.Single?
    ensures !IsTrustedOrigin(r.value, r.value.canonical.value, parse)
  {
    ghost var p := OriginPattern(hostname, host, Some("443"), Some(Https), false, IsLoopback(hostname));
    PinnedIsListed(env, host, hostname);
    PinnedIsConfigured(env, parse, p);
    PinnedDefaultPort(parse, host, hostname);
    r := ResolveAppOrigins(env, parse);
    assert r.value.patterns == [p] && FirstExact([p]) == 0;
  }

  /** `https://a.com:443` is such an entry. */
  lemma PinnedExample(host: string, hostname: string)
    requires host == "a.com:443" && hostname == "a.com"
    ensures PinnedEntry(host, hostname) && ',' !in host
  {
    PinnedExampleSplits(host, hostname);
    PinnedExampleLower(hostname);
    PinnedExampleIsPlain(host);
    assert host[..5] == hostname && host[5..] == ":443" == ":" + "443";
    assert hostname == host[..5] && '*' !in host;
  }

  lemma PinnedExampleIsPlain(host: string)
    requires host == "a.com:443"
    ensures NoSpace(host) && !PathIn(host) && '@' !in host && '*' !in host && ',' !in host
  {
    forall i | 0 <= i < |host|
      ensures !IsSpace(host[i]) && !PathChar(host[i]) && host[i] !in {'@', '*', ','}
    {
      assert host[i] in {'a', '.', 'c', 'o', 'm', ':', '4', '3'};
    }
  }

  lemma PinnedExampleLower(hostname: string)
    requires hostname == "a.com"
    ensures Lower(hostname) == hostname
  {
    forall i | 0 <= i < 5 ensures Lower(hostname)[i] == hostname[i] { }
  }

  lemma PinnedExampleSplits(host: string, hostname: string)
    requires host == "a.com:443" && hostname == "a.com"
    ensures SplitHostPort(host) == Some(HostPort(hostname, Some("443")))
  {
    FindIs(host, ':', 5);
    assert DigitsFrom(host, 6) && host[6..] == "443" && host[..5] == hostname;
    assert HostnameEnd(host) == Some(5);
  }

  // What splitting, parsing and matching mean, in terms of the text.

  /** A bracketed text without a bracket inside, or any text without a colon. */
  ghost predicate HostnameText(h: string) {
    && h != ""
    && (|| ':' !in h
        || (|h| >= 3 && h[0] == '[' && h[|h| - 1] == ']' && forall i :: 0 < i < |h| - 1 ==> h[i] != ']'))
  }

  ghost predicate PortText(port: Option<string>) {
    port.Some? ==> port.value != "" && forall i :: 0 <= i < |port.value| ==> '0' <= port.value[i] <= '9'
  }

  lemma SplitSpells(s: string)
    requires SplitHostPort(s).Some?
    ensures var hp := SplitHostPort(s).value;
      && s == hp.hostname + (if hp.port.Some? then ":" + hp.port.value else "")
      && PortText(hp.port) && HostnameText(hp.hostname)
  {
    var end := HostnameEnd(s).value;
    assert s == s[..end] + s[end..];
    if end < |s| { assert s[end..] == ":" + s[end + 1..]; }
  }

  lemma PortFollows(s: string, h: string, port: Option<string>)
    requires PortText(port) && s == h + (if port.Some? then ":" + port.value else "")
    ensures PortAt(s, |h|) == Some(port) && s[..|h|] == h
  {
    if port.Some? {
      assert s[|h|] == ':' && s[|h| + 1..] == port.value;
      forall j | |h| + 1 <= j < |s| ensures Digit(s[j]) { assert s[j] == port.value[j - |h| - 1]; }
    }
  }

  lemma SpellingSplits(s: string, h: string, port: Option<string>)
    requires HostnameText(h) && PortText(port) && s == h + (if port.Some? then ":" + port.value else "")
    ensures SplitHostPort(s) == Some(HostPort(h, port))
  {
    var close := Find(s, ']');
    PortFollows(s, h, port);
    if ':' !in h {
      FindIs(s, ':', |h|);
      if s[0] == '[' && 2 <= close < |s| && PortAt(s, close + 1).Some? { assert close + 1 == |h|; }
    } else {
      FindIs(s, ']', |h| - 1);
    }
    assert HostnameEnd(s) == Some(|h|);
  }

  /** `^(\[[^\]]+\]|[^:]+)(?::(\d+))?$`, both ways. */
  lemma SplitsExactly(s: string, h: string, port: Option<string>)
    ensures SplitHostPort(s) == Some(HostPort(h, port)) <==>
      && s == h + (if port.Some? then ":" + port.value else "")
      && PortText(port) && HostnameText(h)
  {
    if SplitHostPort(s).Some? { SplitSpells(s); }
    if s == h + (if port.Some? then ":" + port.value else "") && PortText(port) && HostnameText(h) {
      SpellingSplits(s, h, port);
    }
  }

  ghost predicate InSome(parts: seq<string>, d: char) {
    exists i :: 0 <= i < |parts| && d in parts[i]
  }

  lemma InFirstOrRest(first: string, rest: seq<string>, d: char)
    ensures InSome([first] + rest, d) <==> d in first || InSome(rest, d)
  {
    var all := [first] + rest;
    assert all[0] == first;
    if InSome(rest, d) {
      var i :| 0 <= i < |rest| && d in rest[i];
      assert all[i + 1] == rest[i];
    }
    if InSome(all, d) {
      var i :| 0 <= i < |all| && d in all[i];
      if i > 0 { assert rest[i - 1] == all[i]; }
    }
  }

  /** Splitting loses no character but the separator. */
  lemma {:induction false} SplitHas(s: string, c: char, d: char)
    requires c != d
    ensures d in s <==> InSome(Split(s, c), d)
    decreases |s|
  {
    var i := Find(s, c);
    if i == |s| {
      assert Split(s, c)[0] == s;
    } else {
      SplitHas(s[i + 1..], c, d);
      InFirstOrRest(s[..i], Split(s[i + 1..], c), d);
      assert s == s[..i] + [c] + s[i + 1..];
    }
  }

  lemma SplitParts(s: string, c: char)
    ensures |Split(s, c)| >= 1 && (|Split(s, c)| > 1 <==> c in s)
  {
    var i := Find(s, c);
    if i < |s| { assert |Split(s[i + 1..], c)| >= 1; }
  }

  lemma StarFirst(rest: string)
    ensures Split("*." + rest, '.') == ["*"] + Split(rest, '.')
  {
    FindIs("*." + rest, '.', 1);
    assert ("*." + rest)[..1] == "*" && ("*." + rest)[2..] == rest;
  }

  lemma StarredRest(hostname: string) returns (rest: string)
    requires ValidateWildcard(hostname).None?
    ensures hostname == "*." + rest && '*' !in rest && '.' in rest
  {
    var i := Find(hostname, '.');
    assert Split(hostname, '.')[0] == hostname[..i];
    rest := hostname[i + 1..];
    assert hostname == hostname[..i] + "." + rest && "*" + "." == "*.";
    SplitHas(rest, '.', '*');
    SplitParts(rest, '.');
    StarFirst(rest);
    forall k | 0 <= k < |Split(rest, '.')| ensures '*' !in Split(rest, '.')[k] {
      assert Split(hostname, '.')[k + 1] == Split(rest, '.')[k];
    }
  }

  lemma SplitFirst(first: string, rest: string, c: char)
    requires c !in first
    ensures Split(first, c) == [first] && Split(first + [c] + rest, c) == [first] + Split(rest, c)
  {
    var all := first + [c] + rest;
    FindIs(first, c, |first|);
    FindIs(all, c, |first|);
    assert all[..|first|] == first && all[|first| + 1..] == rest;
  }

  lemma InRest(first: string, rest: seq<string>, c: char)
    ensures InSome(rest, c) <==> exists i :: 1 <= i < |[first] + rest| && c in ([first] + rest)[i]
  {
    var all := [first] + rest;
    forall k | 0 <= k < |rest| ensures all[k + 1] == rest[k] {
    }
    if InSome(rest, c) {
      var k :| 0 <= k < |rest| && c in rest[k];
      assert c in all[k + 1];
    }
  }

  /** A stray asterisk is complained about first, then a first label that is none, then too few labels. */
  lemma WildcardComplaints(first: string, rest: string)
    requires '.' !in first
    ensures ValidateWildcard(first) == Some(if first == "*" then WildcardTooBroad else WildcardInLabel)
    ensures ValidateWildcard(first + "." + rest) ==
      if '*' in rest then Some(WildcardInside)
      else if first != "*" then Some(WildcardInLabel)
      else if '.' !in rest then Some(WildcardTooBroad)
      else None
  {
    SplitFirst(first, rest, '.');
    SplitHas(rest, '.', '*');
    SplitParts(rest, '.');
    InRest(first, Split(rest, '.'), '*');
  }

  /** A wildcard is a whole first label, and at least two literal labels follow it. */
  lemma WildcardExactly(hostname: string)
    ensures ValidateWildcard(hostname).None? <==>
      exists rest :: hostname == "*." + rest && '*' !in rest && '.' in rest
  {
    if ValidateWildcard(hostname).None? { var rest := StarredRest(hostname); }
    if rest :| hostname == "*." + rest && '*' !in rest && '.' in rest {
      SplitHas(rest, '.', '*');
      SplitParts(rest, '.');
      StarFirst(rest);
    }
  }

  ghost predicate AllSpace(s: string) {
    forall i :: 0 <= i < |s| ==> IsSpace(s[i])
  }

  /** White space and line terminators of ECMAScript, by code point. */
  lemma SpacesAre(c: char)
    ensures IsSpace(c) <==>
      || c as int in {9, 10, 11, 12, 13, 32, 160, 5760, 8232, 8233, 8239, 8287, 12288, 65279}
      || 8192 <= c as int <= 8202
  {
  }

  /** Trimming takes off all the white space at either end, and nothing else. */
  lemma TrimExactly(s: string) returns (before: string, after: string)
    ensures s == before + Trim(s) + after && AllSpace(before) && AllSpace(after)
    ensures Trim(s) != "" ==> !IsSpace(Trim(s)[0]) && !IsSpace(Trim(s)[|Trim(s)| - 1])
  {
    var i := TrimStartIsSlice(s);
    var j := TrimEndIsSlice(s[i..]);
    before, after := s[..i], s[i..][j..];
    assert s == s[..i] + s[i..] && s[i..] == s[i..][..j] + s[i..][j..];
  }

  lemma {:induction false} TrimStartIsSlice(s: string) returns (i: nat)
    ensures i <= |s| && TrimStart(s) == s[i..] && AllSpace(s[..i]) && (i < |s| ==> !IsSpace(s[i]))
  {
    if s != "" && IsSpace(s[0]) {
      i := TrimStartIsSlice(s[1..]);
      assert s[..i + 1] == [s[0]] + s[1..][..i];
      i := i + 1;
    } else {
      i := 0;
    }
  }

  lemma {:induction false} TrimEndIsSlice(s: string) returns (j: nat)
    ensures j <= |s| && TrimEnd(s) == s[..j] && AllSpace(s[j..]) && (j > 0 ==> !IsSpace(s[j - 1]))
  {
    if s != "" && IsSpace(s[|s| - 1]) {
      j := TrimEndIsSlice(s[..|s| - 1]);
      assert s[..|s| - 1][..j] == s[..j] && s[j..] == s[..|s| - 1][j..] + [s[|s| - 1]];
    } else {
      j := |s|;
    }
  }

  lemma LowerTrims(s: string)
    requires Lower(s) == s
    ensures Lower(Trim(s)) == Trim(s)
  {
    var i := TrimStartIsSlice(s);
    var j := TrimEndIsSlice(s[i..]);
    assert Trim(s) == s[i..][..j];
    forall k | 0 <= k < j ensures Lower(Trim(s))[k] == Trim(s)[k] { assert Trim(s)[k] == s[i + k] == Lower(s)[i + k]; }
  }

  lemma LowerHostname(candidate: string, hostname: string, port: Option<string>)
    requires SplitHostPort(Lower(Trim(candidate))) == Some(HostPort(hostname, port))
    ensures Lower(hostname) == hostname
  {
    var normalized := Lower(Trim(candidate));
    LowerTwice(Trim(candidate));
    SplitsExactly(normalized, hostname, port);
    forall k | 0 <= k < |hostname| ensures Lower(hostname)[k] == hostname[k] {
      assert hostname[k] == normalized[k] == Lower(normalized)[k];
    }
  }

  /** An exact entry takes its own hostname alone; if it pins a port, that port alone. */
  lemma ExactTakes(p: OriginPattern, candidate: string, hostname: string, port: Option<string>)
    requires WellFormed(p) && '*' !in p.hostname
    requires SplitHostPort(Lower(Trim(candidate))) == Some(HostPort(hostname, port))
    ensures MatchesPattern(candidate, p) <==> Trim(hostname) == p.hostname && (p.port.Some? ==> p.port == port)
  {
    LowerHostname(candidate, hostname, port);
    LowerTrims(hostname);
    OwnHostname(p);
  }

  /** `*.base` takes the hosts with a label before `.base`, whatever their port unless it pins one. */
  lemma WildcardTakes(p: OriginPattern, base: string, candidate: string, hostname: string, port: Option<string>)
    requires WellFormed(p) && p.hostname == "*." + base
    requires SplitHostPort(Lower(Trim(candidate))) == Some(HostPort(hostname, port))
    ensures MatchesPattern(candidate, p) <==>
      && (exists first :: first != "" && Trim(hostname) == first + ("." + base))
      && (p.port.Some? ==> p.port == port)
  {
    LowerHostname(candidate, hostname, port);
    LowerTrims(hostname);
    StarAtFront(p.hostname, base);
    EndsAfterSomething(Trim(hostname), "." + base);
    assert MatchesPattern(candidate, p) <==>
      (p.port.Some? ==> p.port == port) && MatchesHostname(hostname, p);
  }

  lemma StarAtFront(hostname: string, base: string)
    requires hostname == "*." + base
    ensures '*' in hostname && hostname[1..] == "." + base
  {
    assert hostname[0] == '*';
  }

  lemma EndsAfterSomething(h: string, suffix: string)
    ensures EndsWith(h, suffix) && |h| > |suffix| <==> exists first :: first != "" && h == first + suffix
  {
    if |h| > |suffix| && h[|h| - |suffix|..] == suffix {
      var first := h[..|h| - |suffix|];
      assert h == first + suffix;
    }
    if first :| first != "" && h == first + suffix {
      assert h[|h| - |suffix|..] == suffix;
    }
  }

  /** Every wildcard entry has that form, and no other entry has a star. */
  lemma WildcardForm(p: OriginPattern) returns (base: string)
    requires WellFormed(p) && p.wildcard
    ensures p.hostname == "*." + base && '*' !in base && '.' in base
  {
    base := StarredRest(p.hostname);
  }

  /** What splits into no hostname and port is on no list. */
  lemma NothingTaken(candidate: string, p: OriginPattern)
    requires SplitHostPort(Lower(Trim(candidate))).None?
    ensures !MatchesPattern(candidate, p)
  {
  }

  function SchemePrefix(protocol: Option<Protocol>): string {
    if protocol.None? then "" else if protocol.value.Https? then "https://" else "http://"
  }

  /** A parsed entry is its scheme, if any, and its host in some case; spaces around it do not count. */
  lemma ParseSpells(entry: string)
    requires ParseOriginPattern(entry).Ok?
    ensures var p := ParseOriginPattern(entry).value;
      exists host :: Trim(entry) == SchemePrefix(p.protocol) + host && Lower(host) == p.host
  {
    var split := SplitScheme(Trim(entry));
    NoPathNoSpace(Trim(entry));
    ParsedAuthority(split.1, split.0);
    SchemeSpells(Trim(entry));
  }

  lemma SchemeSpells(s: string)
    ensures s == SchemePrefix(SplitScheme(s).0) + SplitScheme(s).1
  {
    assert "" + s == s;
    if StartsWith(s, "https://") { assert s == s[..8] + s[8..]; }
    if StartsWith(s, "http://") { assert s == s[..7] + s[7..]; }
  }

  lemma PrefixSplits(protocol: Option<Protocol>, host: string)
    requires host != "" && !PathIn(host)
    ensures SplitScheme(SchemePrefix(protocol) + host) == (protocol, host)
    ensures WithoutScheme(SchemePrefix(protocol) + host) == host
  {
    if protocol.None? {
      assert "" + host == host;
      if StartsWith(host, "https://") { assert host[..8][6] == '/' && PathChar(host[6]); }
      if StartsWith(host, "http://") { assert host[..7][5] == '/' && PathChar(host[5]); }
    } else if protocol.value.Https? {
      HttpsPrefix(host);
      assert ("https://" + host)[..8] == "https://" && ("https://" + host)[8..] == host;
    } else {
      HttpPrefix(host);
      assert ("http://" + host)[..7] == "http://" && ("http://" + host)[7..] == host;
      assert ("http://" + host)[..8][4] == ':' && "https://"[4] == 's';
    }
  }

  lemma PrefixIsPlain(protocol: Option<Protocol>, host: string)
    requires NoSpace(host) && '@' !in host
    ensures NoSpace(SchemePrefix(protocol) + host) && '@' !in SchemePrefix(protocol) + host
  {
    var prefix := SchemePrefix(protocol);
    forall i | 0 <= i < |prefix + host| ensures !IsSpace((prefix + host)[i]) && (prefix + host)[i] != '@' {
      assert (prefix + host)[i] == if i < |prefix| then prefix[i] else host[i - |prefix|];
    }
  }

  /** A pattern, written out with its scheme, parses to itself. */
  lemma PatternRoundTrip(p: OriginPattern)
    requires WellFormed(p) && '@' !in p.host && !PathIn(p.host) && p.hostname != "."
    ensures ParseOriginPattern(SchemePrefix(p.protocol) + p.host) == Ok(p)
  {
    PrefixIsPlain(p.protocol, p.host);
    PrefixSplits(p.protocol, p.host);
    TrimNothing(SchemePrefix(p.protocol) + p.host);
    HostRoundTrip(p);
  }

  /** The entry's text, without its scheme, spells the pattern's host. */
  ghost predicate Spells(text: string, p: OriginPattern, host: string) {
    text == SchemePrefix(p.protocol) + host && Lower(host) == p.host && '@' !in host && !PathIn(host)
  }

  lemma NothingToParse(entry: string)
    ensures Trim(entry) == "" ==> ParseOriginPattern(entry) == Error(EmptyEntry)
    ensures Trim(entry) == "http://" || Trim(entry) == "https://" ==> ParseOriginPattern(entry) == Error(InvalidHost)
  {
    if Trim(entry) == "http://" || Trim(entry) == "https://" { BareAuthority(Trim(entry)); }
  }

  lemma BareAuthority(text: string)
    requires text == "http://" || text == "https://"
    ensures !PathIn(WithoutScheme(text)) && '@' !in text
    ensures ParseAuthority(SplitScheme(text).1, SplitScheme(text).0) == Error(InvalidHost)
  {
    BareScheme(text);
    BareSplits(text);
  }

  lemma BareSplits(text: string)
    requires text == "http://" || text == "https://"
    ensures WithoutScheme(text) == "" && SplitScheme(text) == (None, text) && '@' !in text
  {
    if |text| == 8 {
      assert text[8..] == "" && text[..7][4] == 's';
    } else {
      assert text[7..] == "";
    }
  }

  lemma ParsedSpells(entry: string)
    requires ParseOriginPattern(entry).Ok?
    ensures var p := ParseOriginPattern(entry).value;
      WellFormed(p) && p.hostname != "." && Spells(Trim(entry), p, SplitScheme(Trim(entry)).1)
  {
    var split := SplitScheme(Trim(entry));
    NoPathNoSpace(Trim(entry));
    assert ParseAuthority(split.1, split.0) == ParseOriginPattern(entry);
    ParsedAuthority(split.1, split.0);
    AuthorityIsHost(split.1, split.0);
    SchemeSpells(Trim(entry));
    NothingForbidden(entry);
  }

  lemma NothingForbidden(entry: string)
    requires ParseOriginPattern(entry).Ok?
    ensures '@' !in SplitScheme(Trim(entry)).1 && !PathIn(SplitScheme(Trim(entry)).1)
  {
    NothingToParse(entry);
    NotInRest(Trim(entry));
  }

  lemma NotInRest(text: string)
    requires text != "http://" && text != "https://" && '@' !in text && !PathIn(WithoutScheme(text))
    ensures '@' !in SplitScheme(text).1 && !PathIn(SplitScheme(text).1)
  {
    SchemeSpells(text);
    SameRest(text);
    AtInHost(SplitScheme(text).0, SplitScheme(text).1);
  }

  lemma SameRest(text: string)
    requires text != "http://" && text != "https://"
    ensures WithoutScheme(text) == SplitScheme(text).1
  {
    if |text| == 8 { assert text[..8] == text; }
    if |text| == 7 { assert text[..7] == text; }
  }

  lemma AuthorityIsHost(authority: string, protocol: Option<Protocol>)
    requires ParseAuthority(authority, protocol).Ok?
    ensures ParseAuthority(authority, protocol).value.hostname != "."
  {
  }

  lemma SpelledParses(entry: string, p: OriginPattern, host: string)
    requires WellFormed(p) && p.hostname != "." && Spells(Trim(entry), p, host)
    ensures ParseOriginPattern(entry) == Ok(p)
  {
    PrefixSplits(p.protocol, host);
    AtInHost(p.protocol, host);
    AnyCaseParses(p, host);
  }

  lemma AnyCaseParses(p: OriginPattern, host: string)
    requires WellFormed(p) && p.hostname != "." && Lower(host) == p.host
    ensures ParseAuthority(host, p.protocol) == Ok(p)
  {
    LowerSplit(host);
    Respelled(host);
  }

  lemma AtInHost(protocol: Option<Protocol>, host: string)
    ensures '@' in SchemePrefix(protocol) + host <==> '@' in host
  {
    var prefix := SchemePrefix(protocol);
    forall i | 0 <= i < |host| ensures host[i] == (prefix + host)[|prefix| + i] {
    }
  }

  /** An entry parses to a pattern exactly if its text, trimmed, spells it. */
  lemma ParsesExactly(entry: string, p: OriginPattern)
    ensures ParseOriginPattern(entry) == Ok(p) <==>
      WellFormed(p) && p.hostname != "." && exists host :: Spells(Trim(entry), p, host)
  {
    if ParseOriginPattern(entry).Ok? { ParsedSpells(entry); }
    if host :| WellFormed(p) && p.hostname != "." && Spells(Trim(entry), p, host) { SpelledParses(entry, p, host); }
  }

  /** With a host to look at: a path is complained about first, then credentials, then the host, then its wildcard. */
  lemma ComplaintsInOrder(entry: string, protocol: Option<Protocol>, host: string)
    requires host != "" && Trim(entry) == SchemePrefix(protocol) + host
    requires protocol == None ==> !StartsWith(host, "http://") && !StartsWith(host, "https://")
    ensures PathIn(host) ==> ParseOriginPattern(entry) == Error(HasPath)
    ensures !PathIn(host) && '@' in host ==> ParseOriginPattern(entry) == Error(HasCredentials)
    ensures !PathIn(host) && '@' !in host ==>
      (ParseOriginPattern(entry) == Error(InvalidHost) <==>
         SplitHostPort(host).None? || SplitHostPort(host).value.hostname == ".")
  {
    SchemeLeaves(protocol, host);
    AtInHost(protocol, host);
    if !PathIn(host) {
      PrefixSplits(protocol, host);
      AuthorityComplains(host, protocol);
    }
  }

  lemma AuthorityComplains(host: string, protocol: Option<Protocol>)
    ensures ParseAuthority(host, protocol) == Error(InvalidHost) <==>
      SplitHostPort(host).None? || SplitHostPort(host).value.hostname == "."
  {
    if SplitHostPort(host).Some? { DotLowers(SplitHostPort(host).value.hostname); }
  }

  lemma DotLowers(s: string)
    ensures Lower(s) == "." <==> s == "."
  {
    if |s| == 1 { LowerPunctuation(s[0], '.'); }
  }

  lemma SchemeLeaves(protocol: Option<Protocol>, host: string)
    requires host != "" && (protocol == None ==> !StartsWith(host, "http://") && !StartsWith(host, "https://"))
    ensures WithoutScheme(SchemePrefix(protocol) + host) == host
  {
    var all := SchemePrefix(protocol) + host;
    if protocol.None? {
      assert all == host;
    } else if protocol.value.Https? {
      assert all[..8] == "https://" && all[8..] == host;
    } else {
      assert all[..7] == "http://" && all[7..] == host;
      assert all[..8][4] == ':' && "https://"[4] == 's';
    }
  }

  lemma HostRoundTrip(p: OriginPattern)
    requires WellFormed(p) && p.hostname != "."
    ensures ParseAuthority(p.host, p.protocol) == Ok(p)
  {
    Respelled(p.host);
  }

  /** The list is split at commas; the parts are trimmed and the empty ones left out. */
  lemma EntriesByComma(first: string, rest: string)
    requires ',' !in first
    ensures Entries(Split(first, ',')) == if Trim(first) == "" then [] else [Trim(first)]
    ensures Entries(Split(first + "," + rest, ',')) ==
      (if Trim(first) == "" then [] else [Trim(first)]) + Entries(Split(rest, ','))
  {
    SplitFirst(first, rest, ',');
    assert Entries([first]) == (if Trim(first) == "" then [] else [Trim(first)]) + Entries([]);
  }

  /** Entries are parsed one by one; the first complaint is the list's. */
  lemma {:induction false} ParsedInOrder(entries: seq<string>)
    ensures ParseAll(entries).Ok? ==>
      && |ParseAll(entries).value| == |entries|
      && forall i :: 0 <= i < |entries| ==> ParseOriginPattern(entries[i]) == Ok(ParseAll(entries).value[i])
    ensures ParseAll(entries).Error? ==>
      exists i :: 0 <= i < |entries| && FirstComplaint(entries, i, ParseAll(entries).error)
  {
    if entries == [] {
    } else {
      ParsedInOrder(entries[1..]);
      assert forall i :: 0 < i < |entries| ==> entries[1..][i - 1] == entries[i];
      if ParseOriginPattern(entries[0]).Error? {
        assert FirstComplaint(entries, 0, ParseAll(entries).error);
      } else if ParseAll(entries[1..]).Error? {
        var i :| 0 <= i < |entries| - 1 && FirstComplaint(entries[1..], i, ParseAll(entries[1..]).error);
        assert FirstComplaint(entries, i + 1, ParseAll(entries).error);
      } else {
        FirstAndRest(entries);
      }
    }
  }

  ghost predicate FirstComplaint(entries: seq<string>, i: nat, error: OriginError)
    requires i < |entries|
  {
    ParseOriginPattern(entries[i]) == Error(error) && forall j :: 0 <= j < i ==> ParseOriginPattern(entries[j]).Ok?
  }

  /** Trust: a web URL's host, or the text itself, is on the list, or in inferred mode is a host at all. */
  lemma TrustedExactly(o: AppOrigins, candidate: string, parse: string -> Option<Url>)
    ensures var text := Trim(candidate);
      IsTrustedOrigin(o, candidate, parse) <==>
        && text != ""
        && if (|text| >= 7 && Lower(text)[..7] == "http://") || (|text| >= 8 && Lower(text)[..8] == "https://") then
             parse(text).Some? && TrustedHost(o, parse(text).value.host)
           else TrustedHost(o, text)
  {
    var text := Trim(candidate);
    WebSchemeText(text);
    if parse(text).Some? { TrustedHostExactly(o, parse(text).value.host); }
    TrustedHostExactly(o, text);
  }

  lemma TrustedHostExactly(o: AppOrigins, host: string)
    ensures TrustedHost(o, host) <==> if o.mode.Inferred? then IsHostShaped(host) else Accepts(o.patterns, host)
  {
    HostShaped(host);
  }

  lemma WebSchemeText(text: string)
    ensures HasWebScheme(text) <==>
      (|text| >= 7 && Lower(text)[..7] == "http://") || (|text| >= 8 && Lower(text)[..8] == "https://")
  {
  }

  lemma HostShaped(host: string)
    ensures var text := Lower(Trim(host));
      IsHostShaped(host) <==>
        && (forall i :: 0 <= i < |text| ==> !IsSpace(text[i]) && text[i] != '/' && text[i] != '\\' && text[i] != '@')
        && exists h, port ::
             PortText(port) && HostnameText(h) && text == h + (if port.Some? then ":" + port.value else "")
  {
    var text := Lower(Trim(host));
    if SplitHostPort(text).Some? {
      var hp := SplitHostPort(text).value;
      SplitsExactly(text, hp.hostname, hp.port);
    }
    if h, port :| PortText(port) && HostnameText(h) && text == h + (if port.Some? then ":" + port.value else "") {
      SplitsExactly(text, h, port);
    }
    assert PathIn(text) <==> exists i :: 0 <= i < |text| && (IsSpace(text[i]) || text[i] == '/' || text[i] == '\\');
  }

  /** In inferred mode anything that is a hostname, perhaps with a port. */
  ghost predicate TrustedHost(o: AppOrigins, host: string) {
    if o.mode.Inferred? then
      var text := Lower(Trim(host));
      && (forall i :: 0 <= i < |text| ==> !IsSpace(text[i]) && text[i] != '/' && text[i] != '\\' && text[i] != '@')
      && exists h, port ::
           PortText(port) && HostnameText(h) && text == h + (if port.Some? then ":" + port.value else "")
    else exists i :: 0 <= i < |o.patterns| && MatchesPattern(host, o.patterns[i])
  }

  ghost predicate LoopbackText(h: string) {
    || h == "localhost" || h == "127.0.0.1" || h == "::1"
    || (|h| >= 10 && h[|h| - 10..] == ".localhost") || (|h| >= 4 && h[..4] == "127.")
  }

  /** The loopback names, without brackets or in them. */
  lemma LoopbackExactly(h: string)
    requires Lower(h) == h && h != "" && h[0] != '[' && h[|h| - 1] != ']'
    ensures IsLoopback(h) <==> LoopbackText(h)
    ensures IsLoopback("[" + h + "]") <==> LoopbackText(h)
  {
    var bracketed := "[" + h + "]";
    forall i | 0 <= i < |bracketed| ensures Lower(bracketed)[i] == bracketed[i] {
      if 0 < i <= |h| { assert bracketed[i] == h[i - 1] == Lower(h)[i - 1]; }
    }
    assert Lower(bracketed) == bracketed && bracketed[1..] == h + "]" && (h + "]")[..|h|] == h;
  }

  /** The loopback addresses, always there outside production, at the configured port or 3000. */
  lemma DefaultsAre(env: Environment, port: string)
    requires port == if Trimmed(env.port) == "" then "3000" else Trimmed(env.port)
    requires PortText(Some(port))
    ensures DevelopmentDefaults(env) ==
      Ok([LoopbackPattern("localhost", port), LoopbackPattern("127.0.0.1", port), LoopbackPattern("[::1]", port)])
  {
    var names := ["localhost", "127.0.0.1", "[::1]"];
    var patterns := [LoopbackPattern(names[0], port), LoopbackPattern(names[1], port), LoopbackPattern(names[2], port)];
    forall i | 0 <= i < 3 ensures ParseOriginPattern(DefaultEntries(port)[i]) == Ok(patterns[i]) {
      LoopbackParses(names[i], port);
      assert DefaultEntries(port)[i] == LoopbackEntry(names[i], port) && patterns[i] == LoopbackPattern(names[i], port);
    }
    AllParsed(DefaultEntries(port), patterns);
  }

  lemma {:induction false} AllParsed(entries: seq<string>, patterns: seq<OriginPattern>)
    requires |entries| == |patterns|
    requires forall i :: 0 <= i < |entries| ==> ParseOriginPattern(entries[i]) == Ok(patterns[i])
    ensures ParseAll(entries) == Ok(patterns)
  {
    if entries == [] {
    } else {
      AllParsed(entries[1..], patterns[1..]);
      FirstAndRest(entries);
      assert patterns == [patterns[0]] + patterns[1..];
    }
  }

  function LoopbackPattern(hostname: string, port: string): OriginPattern {
    OriginPattern(hostname, hostname + ":" + port, Some(port), Some(Http), false, true)
  }

  lemma LoopbackParses(hostname: string, port: string)
    requires hostname in {"localhost", "127.0.0.1", "[::1]"} && PortText(Some(port))
    ensures ParseOriginPattern(LoopbackEntry(hostname, port)) == Ok(LoopbackPattern(hostname, port))
  {
    LoopbackIsPlain(hostname);
    LoopbackIsLoopback(hostname);
    PlainWithPort(hostname, port);
    PatternRoundTrip(LoopbackPattern(hostname, port));
  }

  /** A hostname in lower case without anything special, and a port. */
  lemma PlainWithPort(hostname: string, port: string)
    requires Plain(hostname) && HostnameText(hostname) && PortText(Some(port))
    ensures var host := hostname + ":" + port;
      && Lower(host) == host && NoSpace(host) && !PathIn(host) && '@' !in host
      && SplitHostPort(host) == Some(HostPort(hostname, Some(port)))
  {
    var host := hostname + ":" + port;
    PlainChars(hostname, port);
    FineText(host);
    assert host == hostname + (":" + port);
    SplitsExactly(host, hostname, Some(port));
  }

  lemma FineText(s: string)
    requires forall i :: 0 <= i < |s| ==>
      !IsSpace(s[i]) && !PathChar(s[i]) && s[i] != '@' && LowerChar(s[i]) == s[i]
    ensures Lower(s) == s && NoSpace(s) && !PathIn(s) && '@' !in s
  {
  }

  lemma PlainChars(hostname: string, port: string)
    requires Plain(hostname) && PortText(Some(port))
    ensures var host := hostname + ":" + port;
      forall i :: 0 <= i < |host| ==>
        !IsSpace(host[i]) && !PathChar(host[i]) && host[i] != '@' && LowerChar(host[i]) == host[i]
  {
    var host := hostname + ":" + port;
    forall i | 0 <= i < |host|
      ensures !IsSpace(host[i]) && !PathChar(host[i]) && host[i] != '@' && LowerChar(host[i]) == host[i]
    {
      assert host[i] ==
        if i < |hostname| then hostname[i] else if i == |hostname| then ':' else port[i - |hostname| - 1];
    }
  }

  ghost predicate Plain(s: string) {
    forall i :: 0 <= i < |s| ==>
      !IsSpace(s[i]) && !PathChar(s[i]) && s[i] != '@' && s[i] != '*' && LowerChar(s[i]) == s[i]
  }

  lemma LoopbackIsPlain(hostname: string)
    requires hostname in {"localhost", "127.0.0.1", "[::1]"}
    ensures Plain(hostname) && Lower(hostname) == hostname && HostnameText(hostname) && hostname != "."
  {
    forall i | 0 <= i < |hostname|
      ensures !IsSpace(hostname[i]) && !PathChar(hostname[i]) && hostname[i] != '@' && hostname[i] != '*'
      ensures LowerChar(hostname[i]) == hostname[i]
    {
      assert hostname[i] in {'l', 'o', 'c', 'a', 'h', 's', 't', '1', '2', '7', '.', '0', '[', ':', ']'};
    }
  }

  lemma LoopbackIsLoopback(hostname: string)
    requires hostname in {"localhost", "127.0.0.1", "[::1]"} && Lower(hostname) == hostname
    ensures IsLoopback(hostname)
  {
    if hostname == "[::1]" {
      assert hostname[1..] == "::1]" && "::1]"[..3] == "::1";
    }
  }
}
