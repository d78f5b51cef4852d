/** Which HTTP requests an egress policy permits and which address it sends them to
    (internal/netstack/l7_egress_security.go). */
module EgressRules {
  import opened Domain
  import opened Text
  import opened Destinations

  datatype Rule = Rule(action: string, protocol: string, host: string, port: nat, verb: string, path: string)

  /** The part of a compiled policy that decides requests. */
  datatype Terms = Terms(rules: seq<Rule>, defaultAllow: bool, allowOut: seq<string>, denyOut: seq<string>)

  /** A request whose authority is already split into host and port. */
  datatype Request = Request(scheme: string, host: string, port: nat, verb: string, path: string)

  // ---------------------------------------------------------------------------------------------
  // Paths
  // ---------------------------------------------------------------------------------------------

  /** The path before the query. */
  function CutQuery(path: string): string { Split(path, '?')[0] }

  /** That is: up to the first question mark. */
  lemma QueryIsCut(path: string)
    ensures var r := CutQuery(path); '?' !in r && r <= path && (r != path ==> path[|r|] == '?')
  {
    SplitHead(path, '?');
  }

  /** A valid pattern is empty, or starts with a slash and uses `*` only as a whole segment and `**`
      only as the last one. */
  ghost predicate ValidPath(pattern: string) {
    pattern == "" || (
      && pattern[0] == '/' && '?' !in pattern && '#' !in pattern && '\\' !in pattern
      && var p := Split(pattern, '/');
         forall i :: 0 <= i < |p| ==> '*' !in p[i] || p[i] == "*" || (p[i] == "**" && i == |p| - 1))
  }

  method ValidEgressPath(pattern: string) returns (ok: bool)
    ensures ok <==> ValidPath(pattern)
  {
    if pattern == "" { return true; }
    if pattern[0] != '/' || '?' in pattern || '#' in pattern || '\\' in pattern { return false; }
    var segments := Split(pattern, '/');
    for i := 0 to |segments|
      invariant forall j :: 0 <= j < i ==>
                '*' !in segments[j] || segments[j] == "*" || (segments[j] == "**" && j == |segments| - 1)
    {
      if '*' in segments[i] && segments[i] != "*" && !(segments[i] == "**" && i == |segments| - 1) { return false; }
    }
    ok := true;
  }

  /** What one pattern segment stands for: `**` for one or more segments, `*` for one that is not
      empty, anything else for itself. */
  ghost predicate Stands(segment: string, fill: seq<string>) {
    if segment == "**" then |fill| >= 1
    else if segment == "*" then |fill| == 1 && fill[0] != ""
    else fill == [segment]
  }

  function Flatten(fills: seq<seq<string>>): seq<string> {
    if fills == [] then [] else fills[0] + Flatten(fills[1..])
  }

  ghost predicate IsFilling(pattern: seq<string>, fills: seq<seq<string>>, actual: seq<string>) {
    |fills| == |pattern| && (forall i :: 0 <= i < |pattern| ==> Stands(pattern[i], fills[i]))
        && Flatten(fills) == actual
  }

  /** A path is an instance of a pattern when replacing each wildcard by what it stands for gives it. */
  ghost predicate Instance(pattern: seq<string>, actual: seq<string>) {
    exists fills :: IsFilling(pattern, fills, actual)
  }

  predicate SegmentsMatch(pattern: seq<string>, actual: seq<string>) {
    if pattern == [] then actual == []
    else if actual == [] then false
    else if pattern[0] == "**" then true
    else if pattern[0] == "*" && actual[0] == "" then false
    else if pattern[0] != "*" && pattern[0] != actual[0] then false
    else SegmentsMatch(pattern[1..], actual[1..])
  }

  predicate PathMatches(pattern: string, path: string) {
    pattern == "" || SegmentsMatch(Split(pattern, '/'), Split(CutQuery(path), '/'))
  }

  method EgressPathMatches(pattern: string, path: string) returns (ok: bool)
    ensures ok == PathMatches(pattern, path)
  {
    if pattern == "" { return true; }
    var segments, actual := Split(pattern, '/'), Split(CutQuery(path), '/');
    for i := 0 to |segments|
      invariant i <= |actual| && SegmentsMatch(segments, actual) == SegmentsMatch(segments[i..], actual[i..])
    {
      if i >= |actual| { return false; }
      var segment := segments[i];
      if segment == "**" { return true; }
      if segment == "*" {
        if actual[i] == "" { return false; }
      } else if segment != actual[i] { return false; }
      assert segments[i..][1..] == segments[i + 1..] && actual[i..][1..] == actual[i + 1..];
    }
    ok := |segments| == |actual|;
  }

  ghost predicate OnlyTrailing(pattern: seq<string>) {
    forall i :: 0 <= i < |pattern| - 1 ==> pattern[i] != "**"
  }

  lemma {:induction false} MatchHasFilling(pattern: seq<string>, actual: seq<string>) returns (fills: seq<seq<string>>)
    requires OnlyTrailing(pattern) && SegmentsMatch(pattern, actual)
    ensures IsFilling(pattern, fills, actual)
  {
    if pattern == [] {
      fills := [];
    } else if pattern[0] == "**" {
      fills := [actual];
      assert Flatten(fills) == actual + Flatten([]);
    } else {
      assert OnlyTrailing(pattern[1..]) by {
        assert forall i :: 0 <= i < |pattern| - 2 ==> pattern[1..][i] == pattern[i + 1];
      }
      var rest := MatchHasFilling(pattern[1..], actual[1..]);
      fills := [[actual[0]]] + rest;
      assert fills[1..] == rest;
      forall i | 0 <= i < |pattern| ensures Stands(pattern[i], fills[i]) {
        if i > 0 { assert Stands(pattern[1..][i - 1], rest[i - 1]); }
      }
    }
  }

  lemma {:induction false} FillingMatches(pattern: seq<string>, fills: seq<seq<string>>, actual: seq<string>)
    requires OnlyTrailing(pattern) && IsFilling(pattern, fills, actual)
    ensures SegmentsMatch(pattern, actual)
  {
    if pattern != [] {
      assert Stands(pattern[0], fills[0]);
      if pattern[0] != "**" {
        assert actual[1..] == Flatten(fills[1..]);
        FillingMatches(pattern[1..], fills[1..], actual[1..]);
      }
    }
  }

  /** The left-to-right matcher accepts exactly the instances of a valid pattern. */
  lemma MatcherIsExact(pattern: string, path: string)
    requires ValidPath(pattern) && pattern != ""
    ensures PathMatches(pattern, path) <==> Instance(Split(pattern, '/'), Split(CutQuery(path), '/'))
  {
    var p, a := Split(pattern, '/'), Split(CutQuery(path), '/');
    assert OnlyTrailing(p) by {
      forall i | 0 <= i < |p| - 1 ensures p[i] != "**" { assert "**"[0] == '*'; }
    }
    if SegmentsMatch(p, a) {
      var fills := MatchHasFilling(p, a);
    }
    if Instance(p, a) {
      var fills :| IsFilling(p, fills, a);
      FillingMatches(p, fills, a);
    }
  }

  // ---------------------------------------------------------------------------------------------
  // Rules
  // ---------------------------------------------------------------------------------------------

  predicate HasSuffix(s: string, suffix: string) { |suffix| <= |s| && s[|s| - |suffix|..] == suffix }

  function TrimDot(s: string): string { if s != "" && s[|s| - 1] == '.' then s[..|s| - 1] else s }

  predicate HostMatches(pattern: string, host: string) {
    var p := Lower(TrimDot(Trim(pattern)));
    if |p| >= 2 && p[..2] == "*." then HasSuffix(host, p[1..]) && host != p[2..] else host == p
  }

  predicate Applies(rule: Rule, request: Request) {
    && HostMatches(rule.host, request.host)
    && (rule.port != 0 ==> rule.port == request.port)
    && (Trim(rule.protocol) != "" ==> Lower(Trim(rule.protocol)) == Lower(Trim(request.scheme)))
    && (rule.verb != "" ==> Lower(rule.verb) == Lower(request.verb))
    && PathMatches(rule.path, request.path)
  }

  /** `*.d` stands for whatever ends in a dot and `d`, any other pattern for itself. Patterns are compared
      without blanks around them, in lower case, and without a final dot. */
  ghost predicate HostCovered(pattern: string, host: string) {
    var p := Lower(TrimDot(Trim(pattern)));
    if |p| >= 2 && p[0] == '*' && p[1] == '.' then Below(host, p[2..]) else host == p
  }

  ghost predicate Below(host: string, domain: string) { exists x :: host == x + "." + domain }

  /** What a rule says of a request, field by field; an empty field says nothing. */
  ghost predicate Governs(rule: Rule, request: Request) {
    && HostCovered(rule.host, request.host)
    && (rule.port == 0 || rule.port == request.port)
    && (Trim(rule.protocol) == "" || Lower(Trim(rule.protocol)) == Lower(Trim(request.scheme)))
    && (rule.verb == "" || Lower(rule.verb) == Lower(request.verb))
    && (rule.path == "" || Instance(Split(rule.path, '/'), Split(CutQuery(request.path), '/')))
  }

  /** The text of a pattern that counts: without the blanks around it, and then without one final dot. */
  lemma PatternText(pattern: string) returns (i: nat, j: nat)
    ensures i <= j <= |pattern|
    ensures forall k :: 0 <= k < |pattern| && !(i <= k < j) ==> Blank(pattern[k])
    ensures i < j ==> !Blank(pattern[i]) && !Blank(pattern[j - 1])
    ensures TrimDot(Trim(pattern)) == if i < j && pattern[j - 1] == '.' then pattern[i..j - 1] else pattern[i..j]
  {
    i, j := TrimCuts(pattern);
  }

  lemma SuffixIsBelow(host: string, tail: string)
    requires |tail| >= 1 && tail[0] == '.'
    ensures HasSuffix(host, tail) && host != tail[1..] <==> Below(host, tail[1..])
  {
    assert tail == "." + tail[1..];
    if HasSuffix(host, tail) {
      var x := host[..|host| - |tail|];
      assert host == x + tail == x + "." + tail[1..];
    }
    if Below(host, tail[1..]) {
      var x :| host == x + "." + tail[1..];
      assert host == x + tail && host[|host| - |tail|..] == tail;
    }
  }

  lemma HostIsExact(pattern: string, host: string)
    ensures HostMatches(pattern, host) <==> HostCovered(pattern, host)
  {
    var p := Lower(TrimDot(Trim(pattern)));
    if |p| >= 2 {
      assert p[..2] == "*." <==> p[0] == '*' && p[1] == '.' by { assert p[..2][0] == p[0] && p[..2][1] == p[1]; }
      assert p[1..][1..] == p[2..];
      if p[1] == '.' { SuffixIsBelow(host, p[1..]); }
    }
  }

  /** A wildcard is meant for the hosts below a domain, but also covers the domain with a dot in front:
      the label it stands for may be empty. It does not cover the domain itself. */
  lemma WildcardCoversEmptyLabel()
    ensures HostCovered("*.example.com", ".example.com") && !HostCovered("*.example.com", "example.com")
  {
    var p := "*.example.com";
    TrimKeeps(p);
    assert TrimDot(p) == p && Lower(p) == p && p[2..] == "example.com";
    assert ".example.com" == "" + "." + "example.com";
    assert Below(".example.com", "example.com");
  }

  /** Short of that one spelling, a wildcard means what it is for: the hosts that are some name, a dot and
      the domain. */
  lemma WildcardIsExact(domain: string, host: string)
    requires domain != "" && domain[|domain| - 1] != '.' && !Blank(domain[|domain| - 1])
    requires host != "." + Lower(domain)
    ensures HostCovered("*." + domain, host) <==> exists x: string :: x != "" && host == x + "." + Lower(domain)
  {
    var p := "*." + domain;
    TrimKeeps(p);
    assert Lower(p)[2..] == Lower(domain);
    if x: string :| host == x + "." + Lower(domain) {
      assert x == "" ==> host == "." + Lower(domain);
    }
  }

  /** For a rule with a valid path pattern, the test made is exactly what the rule says. */
  lemma TestIsExact(rule: Rule, request: Request)
    requires ValidPath(rule.path)
    ensures Applies(rule, request) <==> Governs(rule, request)
  {
    HostIsExact(rule.host, request.host);
    if rule.path != "" { MatcherIsExact(rule.path, request.path); }
  }

  predicate Denies(rule: Rule) { Lower(Trim(rule.action)) == "deny" }

  predicate Denied(rules: seq<Rule>, request: Request) {
    exists i :: 0 <= i < |rules| && Applies(rules[i], request) && Denies(rules[i])
  }

  predicate AnyApplies(rules: seq<Rule>, request: Request) {
    exists i :: 0 <= i < |rules| && Applies(rules[i], request)
  }

  /** Every path pattern was accepted when the policy was applied. */
  ghost predicate PathsValid(rules: seq<Rule>) { forall i :: 0 <= i < |rules| ==> ValidPath(rules[i].path) }

  /** The ruling in the words of the rules: none of them governs the request; or the one chosen does, it
      denies exactly if any governing rule denies, and otherwise no earlier rule governs. */
  ghost predicate Ruling(rules: seq<Rule>, request: Request, r: Option<nat>) {
    match r
    case None => forall i :: 0 <= i < |rules| ==> !Governs(rules[i], request)
    case Some(k) =>
      && k < |rules| && Governs(rules[k], request)
      && (Lower(Trim(rules[k].action)) == "deny" <==> SomeDenies(rules, request))
      && (Lower(Trim(rules[k].action)) != "deny" ==> forall j :: 0 <= j < k ==> !Governs(rules[j], request))
  }

  ghost predicate SomeDenies(rules: seq<Rule>, request: Request) {
    exists i :: 0 <= i < |rules| && Governs(rules[i], request) && Lower(Trim(rules[i].action)) == "deny"
  }

  ghost predicate SomeGoverns(rules: seq<Rule>, request: Request) {
    exists i :: 0 <= i < |rules| && Governs(rules[i], request)
  }

  lemma AllExact(rules: seq<Rule>, request: Request)
    requires PathsValid(rules)
    ensures forall i :: 0 <= i < |rules| ==> (Applies(rules[i], request) <==> Governs(rules[i], request))
    ensures Denied(rules, request) <==> SomeDenies(rules, request)
    ensures AnyApplies(rules, request) <==> SomeGoverns(rules, request)
  {
    forall i | 0 <= i < |rules| ensures Applies(rules[i], request) <==> Governs(rules[i], request) {
      TestIsExact(rules[i], request);
    }
  }

  lemma RulingInWords(rules: seq<Rule>, request: Request, r: Option<nat>)
    requires PathsValid(rules) && (r.Some? <==> AnyApplies(rules, request))
    requires r.Some? ==>
             && r.value < |rules| && Applies(rules[r.value], request)
             && (Denies(rules[r.value]) <==> Denied(rules, request))
             && forall j :: 0 <= j < r.value && Applies(rules[j], request) ==> Denied(rules, request)
    ensures Ruling(rules, request, r)
  {
    AllExact(rules, request);
  }

  /** The index of the deciding rule: a rule that applies; one that denies if there is any, wherever
      it stands, and otherwise the first that applies. */
  method MatchingEgressRule(rules: seq<Rule>, request: Request) returns (r: Option<nat>)
    ensures r.Some? <==> AnyApplies(rules, request)
    ensures r.Some? ==> r.value < |rules| && (Denies(rules[r.value]) <==> Denied(rules, request))
    ensures PathsValid(rules) ==> Ruling(rules, request, r)
  {
    r := FirstRuling(rules, request);
    if PathsValid(rules) { RulingInWords(rules, request, r); }
  }

  /** The search for it. */
  method FirstRuling(rules: seq<Rule>, request: Request) returns (r: Option<nat>)
    ensures r.Some? <==> AnyApplies(rules, request)
    ensures r.Some? ==> r.value < |rules| && Applies(rules[r.value], request)
    ensures r.Some? ==> (Denies(rules[r.value]) <==> Denied(rules, request))
    ensures r.Some? ==>
            forall j :: 0 <= j < r.value && Applies(rules[j], request) ==> Denied(rules, request) && !Denies(rules[j])
  {
    var allowed: Option<nat> := None;
    for i := 0 to |rules|
      invariant forall j :: 0 <= j < i && Applies(rules[j], request) ==> !Denies(rules[j]) && allowed.Some?
      invariant allowed.Some? ==> allowed.value < i && Applies(rules[allowed.value], request)
                                  && forall j :: 0 <= j < allowed.value ==> !Applies(rules[j], request)
    {
      if !Applies(rules[i], request) { continue; }
      if Denies(rules[i]) { return Some(i); }
      if allowed.None? { allowed := Some(i); }
    }
    r := allowed;
  }

  /** Reordering the rules changes neither whether the request is denied nor whether a rule applies. */
  lemma OrderIrrelevant(rules: seq<Rule>, other: seq<Rule>, request: Request)
    requires multiset(rules) == multiset(other)
    ensures Denied(rules, request) == Denied(other, request) && AnyApplies(rules, request) == AnyApplies(other, request)
  {
    forall i | 0 <= i < |rules| ensures exists j :: 0 <= j < |other| && other[j] == rules[i] {
      assert rules[i] in multiset(other);
    }
    forall i | 0 <= i < |other| ensures exists j :: 0 <= j < |rules| && rules[j] == other[i] {
      assert other[i] in multiset(rules);
    }
  }

  // ---------------------------------------------------------------------------------------------
  // Addresses
  // ---------------------------------------------------------------------------------------------

  method MatchesEgressIP(entries: seq<string>, ip: Address) returns (ok: bool)
    ensures ok == Listed(entries, ip)
  {
    for i := 0 to |entries|
      invariant forall j :: 0 <= j < i ==> !EntryCovers(entries[j], ip)
    {
      if EntryCovers(entries[i], ip) { return true; }
    }
    ok := false;
  }

  /** An address the policy lets this request go to: IPv4, not denied, and covered by an allowing
      rule, by the allow list or by the default. */
  predicate Permitted(terms: Terms, request: Request, ip: Option<Address>) {
    ip.Some? && !Listed(terms.denyOut, ip.value)
    && (AnyApplies(terms.rules, request) || Listed(terms.allowOut, ip.value) || terms.defaultAllow)
  }

  /** None of the first `n` addresses is permitted. */
  predicate NoneOf(terms: Terms, request: Request, addresses: seq<Option<Address>>, n: nat)
    requires n <= |addresses|
  {
    n == 0 || (NoneOf(terms, request, addresses, n - 1) && !Permitted(terms, request, addresses[n - 1]))
  }

  /** `ip` is the first permitted address of the list, at place `i`. */
  predicate FirstAt(terms: Terms, request: Request, addresses: seq<Option<Address>>, i: nat, ip: Address) {
    i < |addresses| && addresses[i] == Some(ip) && Permitted(terms, request, addresses[i])
        && NoneOf(terms, request, addresses, i)
  }

  ghost predicate FirstPermitted(terms: Terms, request: Request, addresses: seq<Option<Address>>, ip: Address) {
    exists i :: FirstAt(terms, request, addresses, i, ip)
  }

  lemma {:induction false} NotAmong(terms: Terms, request: Request, addresses: seq<Option<Address>>, n: nat, i: nat)
    requires i < n <= |addresses| && NoneOf(terms, request, addresses, n)
    ensures !Permitted(terms, request, addresses[i])
  {
    if i < n - 1 { NotAmong(terms, request, addresses, n - 1, i); }
  }

  /** There is at most one first permitted address, and none if no address is permitted. */
  lemma FirstIsUnique(terms: Terms, request: Request, addresses: seq<Option<Address>>, i: nat, a: Address, n: nat)
    requires FirstAt(terms, request, addresses, i, a) && n <= |addresses| && NoneOf(terms, request, addresses, n)
    ensures n <= i
  {
    if i < n { NotAmong(terms, request, addresses, n, i); }
  }

  /** One resolved address. */
  method PermitsAddress(terms: Terms, request: Request, ruled: bool, ip: Option<Address>) returns (ok: bool)
    requires ruled == AnyApplies(terms.rules, request)
    ensures ok == Permitted(terms, request, ip)
  {
    if ip.None? { return false; }
    var denied := MatchesEgressIP(terms.denyOut, ip.value);
    if denied { return false; }
    var listed := MatchesEgressIP(terms.allowOut, ip.value);
    ok := ruled || listed || terms.defaultAllow;
  }

  method ChooseAddress(terms: Terms, request: Request, ruled: bool, addresses: seq<Option<Address>>)
      returns (r: Option<Address>)
    requires ruled == AnyApplies(terms.rules, request)
    ensures r.Some? ==> FirstPermitted(terms, request, addresses, r.value)
    ensures r.None? <==> NoneOf(terms, request, addresses, |addresses|)
  {
    for i := 0 to |addresses|
      invariant NoneOf(terms, request, addresses, i)
    {
      var ok := PermitsAddress(terms, request, ruled, addresses[i]);
      if ok {
        r := addresses[i];
        assert FirstAt(terms, request, addresses, i, r.value);
        if NoneOf(terms, request, addresses, |addresses|) { NotAmong(terms, request, addresses, |addresses|, i); }
        return;
      }
    }
    r := None;
  }

  /** A request the authoriser looks at: a plain host name, a port, and http or https. */
  predicate WellFormed(request: Request) {
    && request.host != "" && request.port != 0
    && (forall c :: c in request.host ==> c !in ":/@\\?# \t\r\n")
    && (Lower(Trim(request.scheme)) == "http" || Lower(Trim(request.scheme)) == "https")
  }
}
