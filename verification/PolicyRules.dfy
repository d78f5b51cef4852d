/** The iptables rule compiler for sandbox network policies (internal/netstack/policy.go): the rules
    it emits, read back by a small semantics of iptables, decide as the policy's sets do. */
module PolicyRules {
  import opened Domain
  import opened Destinations

  datatype Config = Config(
    allowOut: seq<string>, denyOut: seq<string>, allowIn: seq<string>, denyIn: seq<string>, internet: Option<bool>)

  datatype Packet = Packet(established: bool, src: Address, dst: Address)

  /** Fallthrough: the chain has no opinion and the packet goes on. */
  datatype Verdict = Accept | Reject | Fallthrough

  type Rule = seq<string>

  // ---------------------------------------------------------------------------------------------
  // What iptables does with a chain
  // ---------------------------------------------------------------------------------------------

  predicate AddressMatches(text: string, ip: Address) {
    ParseDest(text).Some? && Covers(ParseDest(text).value, ip)
  }

  predicate Matches(rule: Rule, p: Packet) {
    if |rule| == 2 then rule[0] == "-j"
    else if |rule| == 4 && rule[0] == "-d" then AddressMatches(rule[1], p.dst)
    else if |rule| == 4 && rule[0] == "-s" then AddressMatches(rule[1], p.src)
    else |rule| == 6 && rule[..4] == ["-m", "conntrack", "--ctstate", "ESTABLISHED,RELATED"] && p.established
  }

  function Target(rule: Rule): Verdict {
    if rule != [] && rule[|rule| - 1] == "ACCEPT" then Accept
    else if rule != [] && rule[|rule| - 1] == "REJECT" then Reject else Fallthrough
  }

  /** The first rule that matches decides. */
  function Evaluate(chain: seq<Rule>, p: Packet): Verdict {
    if chain == [] then Fallthrough
    else if Matches(chain[0], p) then Target(chain[0])
    else Evaluate(chain[1..], p)
  }

  // ---------------------------------------------------------------------------------------------
  // What the policy means
  // ---------------------------------------------------------------------------------------------

  /** Established traffic passes; a denied address is rejected even if it is also allowed; an allowed
      one passes; anything else is rejected when there is an allow list or, outbound, when internet
      access is off. */
  function Decision(cfg: Option<Config>, ingress: bool, p: Packet): Verdict {
    if p.established then Accept
    else if cfg.None? then Fallthrough
    else
      var c := cfg.value;
      var peer := if ingress then p.src else p.dst;
      if Listed(if ingress then c.denyIn else c.denyOut, peer) then Reject
      else if Listed(if ingress then c.allowIn else c.allowOut, peer) then Accept
      else if (if ingress then c.allowIn else c.allowOut) != [] || (!ingress && c.internet == Some(false)) then Reject
      else Fallthrough
  }

  // ---------------------------------------------------------------------------------------------
  // The compiler
  // ---------------------------------------------------------------------------------------------

  /** One rule for each supported entry of a list, in order. */
  function ListRules(flag: string, entries: seq<string>, target: string): seq<Rule> {
    if entries == [] then []
    else
      ListRules(flag, entries[..|entries| - 1], target) + EntryRules(flag, entries[|entries| - 1], target)
  }

  method CompileList(flag: string, entries: seq<string>, target: string) returns (r: seq<Rule>)
    ensures r == ListRules(flag, entries, target)
  {
    r := [];
    for i := 0 to |entries|
      invariant r == ListRules(flag, entries[..i], target)
    {
      r := r + EntryRules(flag, entries[i], target);
      ListSnoc(flag, entries[..i], entries[i], target);
      assert entries[..i + 1] == entries[..i] + [entries[i]];
    }
    assert entries[..|entries|] == entries;
  }

  lemma ListSnoc(flag: string, entries: seq<string>, raw: string, target: string)
    ensures ListRules(flag, entries + [raw], target) == ListRules(flag, entries, target) + EntryRules(flag, raw, target)
  {
    assert (entries + [raw])[..|entries|] == entries;
  }

  const PASS_ESTABLISHED: Rule := ["-m", "conntrack", "--ctstate", "ESTABLISHED,RELATED", "-j", "ACCEPT"]
  const REJECT_REST: Rule := ["-j", "REJECT"]

  /** For every policy, direction and packet, the emitted chain decides as the policy does. */
  method SandboxPolicyRules(cfg: Option<Config>, ingress: bool) returns (rules: seq<Rule>)
    ensures forall p: Packet :: Evaluate(rules, p) == Decision(cfg, ingress, p)
    ensures rules == if cfg.Some? then ChainFor(cfg.value, ingress) else [PASS_ESTABLISHED]
  {
    rules := [PASS_ESTABLISHED];
    if cfg.None? {
      forall p: Packet ensures Evaluate(rules, p) == Decision(cfg, ingress, p) { FixedRules(p); }
      return;
    }
    var deny, allow, flag := cfg.value.denyOut, cfg.value.allowOut, "-d";
    var defaultReject := cfg.value.internet == Some(false);
    if ingress {
      deny, allow, flag := cfg.value.denyIn, cfg.value.allowIn, "-s";
      defaultReject := false;
    }
    var denied := CompileList(flag, deny, "REJECT");
    var allowed := CompileList(flag, allow, "ACCEPT");
    rules := rules + denied + allowed;
    if |allow| != 0 || defaultReject { rules := rules + [REJECT_REST]; }
    assert rules == ChainFor(cfg.value, ingress);
    forall p: Packet ensures Evaluate(rules, p) == Decision(cfg, ingress, p) { ChainDecides(cfg.value, ingress, p); }
  }

  lemma FixedRules(p: Packet)
    ensures Matches(PASS_ESTABLISHED, p) <==> p.established
    ensures Evaluate([PASS_ESTABLISHED], p) == if p.established then Accept else Fallthrough
    ensures Evaluate([REJECT_REST], p) == Reject
    ensures Target(["ACCEPT"]) == Accept && Target(["REJECT"]) == Reject
  {
  }

  ghost predicate Hits(rules: seq<Rule>, p: Packet) { exists r :: r in rules && Matches(r, p) }

  lemma {:induction false} EvaluateConcat(a: seq<Rule>, b: seq<Rule>, p: Packet)
    ensures Evaluate(a + b, p) == if Hits(a, p) then Evaluate(a, p) else Evaluate(b, p)
    ensures Hits(a + b, p) <==> Hits(a, p) || Hits(b, p)
  {
    assert forall r :: r in a + b <==> r in a || r in b;
    if a == [] {
      assert a + b == b;
    } else {
      assert (a + b)[0] == a[0] && (a + b)[1..] == a[1..] + b;
      EvaluateConcat(a[1..], b, p);
      assert forall r :: r in a <==> r == a[0] || r in a[1..];
    }
  }

  function Peer(flag: string, p: Packet): Address { if flag == "-s" then p.src else p.dst }

  /** The rules of one entry. */
  function EntryRules(flag: string, raw: string, target: string): seq<Rule> {
    if Normalize(raw).Some? then [[flag, Normalize(raw).value, "-j", target]] else []
  }

  lemma EntryMeaning(flag: string, raw: string, target: string, p: Packet)
    requires flag == "-d" || flag == "-s"
    ensures Hits(EntryRules(flag, raw, target), p) <==> EntryCovers(raw, Peer(flag, p))
    ensures Evaluate(EntryRules(flag, raw, target), p) == if EntryCovers(raw, Peer(flag, p)) then Target([target])
            else Fallthrough
  {
    NormalizeKeepsMeaning(raw, Peer(flag, p));
    var rules := EntryRules(flag, raw, target);
    if rules != [] {
      assert Matches(rules[0], p) <==> AddressMatches(rules[0][1], Peer(flag, p));
      assert rules[0] in rules && Target(rules[0]) == Target([target]);
    }
  }

  /** The rules of a list match exactly the addresses the list covers, and decide its target. */
  lemma {:induction false} ListMeaning(flag: string, entries: seq<string>, target: string, p: Packet)
    requires flag == "-d" || flag == "-s"
    ensures Hits(ListRules(flag, entries, target), p) <==> Listed(entries, Peer(flag, p))
    ensures Evaluate(ListRules(flag, entries, target), p) == if Listed(entries, Peer(flag, p)) then Target([target])
            else Fallthrough
  {
    if entries != [] {
      var n := |entries| - 1;
      ListMeaning(flag, entries[..n], target, p);
      EntryMeaning(flag, entries[n], target, p);
      EvaluateConcat(ListRules(flag, entries[..n], target), EntryRules(flag, entries[n], target), p);
      ListedSplit(entries, Peer(flag, p));
    }
  }

  lemma ListedSplit(entries: seq<string>, ip: Address)
    requires entries != []
    ensures Listed(entries, ip) <==> Listed(entries[..|entries| - 1], ip) || EntryCovers(entries[|entries| - 1], ip)
  {
    var n := |entries| - 1;
    var front := entries[..n];
    assert forall i :: 0 <= i < n ==> front[i] == entries[i];
    if i: nat :| i < n && EntryCovers(front[i], ip) {
      assert EntryCovers(entries[i], ip);
    }
  }

  function Chain(flag: string, deny: seq<string>, allow: seq<string>, rejectRest: bool): seq<Rule> {
    [PASS_ESTABLISHED] + ListRules(flag, deny, "REJECT") + ListRules(flag, allow, "ACCEPT")
        + if rejectRest then [REJECT_REST] else []
  }

  function ChainFor(c: Config, ingress: bool): seq<Rule> {
    if ingress then Chain("-s", c.denyIn, c.allowIn, c.allowIn != [])
    else Chain("-d", c.denyOut, c.allowOut, c.allowOut != [] || c.internet == Some(false))
  }

  lemma ChainDecides(c: Config, ingress: bool, p: Packet)
    ensures Evaluate(ChainFor(c, ingress), p) == Decision(Some(c), ingress, p)
  {
    if ingress { ChainMeaning("-s", c.denyIn, c.allowIn, c.allowIn != [], p); }
    else { ChainMeaning("-d", c.denyOut, c.allowOut, c.allowOut != [] || c.internet == Some(false), p); }
  }

  lemma ChainMeaning(flag: string, deny: seq<string>, allow: seq<string>, rejectRest: bool, p: Packet)
    requires flag == "-d" || flag == "-s"
    ensures Evaluate(Chain(flag, deny, allow, rejectRest), p)
            == if p.established then Accept
               else if Listed(deny, Peer(flag, p)) then Reject
               else if Listed(allow, Peer(flag, p)) then Accept
               else if rejectRest then Reject else Fallthrough
  {
    FixedRules(p);
    ListMeaning(flag, deny, "REJECT", p);
    ListMeaning(flag, allow, "ACCEPT", p);
    Compose([PASS_ESTABLISHED], ListRules(flag, deny, "REJECT"), ListRules(flag, allow, "ACCEPT"),
        if rejectRest then [REJECT_REST] else [], p);
    assert Hits([PASS_ESTABLISHED], p) <==> p.established by { assert PASS_ESTABLISHED in [PASS_ESTABLISHED]; }
  }

  /** Of four parts of a chain, the first one that matches decides. */
  lemma Compose(a: seq<Rule>, b: seq<Rule>, c: seq<Rule>, d: seq<Rule>, p: Packet)
    ensures Evaluate(a + b + c + d, p)
            == if Hits(a, p) then Evaluate(a, p) else if Hits(b, p) then Evaluate(b, p)
               else if Hits(c, p) then Evaluate(c, p) else Evaluate(d, p)
  {
    assert a + b + c + d == a + (b + (c + d));
    EvaluateConcat(c, d, p);
    EvaluateConcat(b, c + d, p);
    EvaluateConcat(a, b + (c + d), p);
  }

  /** A policy whose lists spell destinations: a new connection is rejected when a denied destination
      covers its peer, else accepted when an allowed one does, else rejected when there are allowed ones
      or, on the way out, when internet access is off. */
  lemma SpelledPolicy(c: Config, ingress: bool, deny: seq<Dest>, allow: seq<Dest>, p: Packet)
    requires Spells(if ingress then c.denyIn else c.denyOut, deny) && !p.established
    requires Spells(if ingress then c.allowIn else c.allowOut, allow)
    ensures var verdict, peer := Evaluate(ChainFor(c, ingress), p), if ingress then p.src else p.dst;
            && (CoveredBy(deny, peer) ==> verdict == Reject)
            && (!CoveredBy(deny, peer) && CoveredBy(allow, peer) ==> verdict == Accept)
            && (!CoveredBy(deny, peer) && !CoveredBy(allow, peer) ==>
                  verdict == if allow != [] || (!ingress && c.internet == Some(false)) then Reject else Fallthrough)
  {
    var peer := if ingress then p.src else p.dst;
    ListNames(if ingress then c.denyIn else c.denyOut, deny, peer);
    ListNames(if ingress then c.allowIn else c.allowOut, allow, peer);
    ChainDecides(c, ingress, p);
  }

  /** Denying one address emits its own text, and rejects the new connections to that address only. */
  lemma DenyOneAddress(c: Config, a: Address, p: Packet)
    requires c.denyOut == [FormatAddress(a)] && c.allowOut == [] && c.internet != Some(false)
    ensures ChainFor(c, false) == [PASS_ESTABLISHED, ["-d", FormatAddress(a), "-j", "REJECT"]]
    ensures Evaluate(ChainFor(c, false), p)
            == if p.established then Accept else if p.dst == a then Reject else Fallthrough
  {
    EntryNames(Host(a), a);
    NoBlanks(Host(a));
    assert ListRules("-d", c.denyOut[..0], "REJECT") == [];
    ChainDecides(c, false, p);
    if !p.established { SpelledPolicy(c, false, [Host(a)], [], p); }
  }
}
