/** The authoriser's Check against a pool that other callers keep changing: it loads the slot, then
    the policy, resolves the name, and loads the policy again, and each load sees a later state. */
module EgressCheck {
  import opened Domain
  import opened Text
  import opened Destinations
  import opened EgressRules
  import opened SlotMachine

  datatype Verdict =
    | Bound(assignment: Assignment)          // connection accepted; its metadata carries the assignment
    | Allow(address: Address, port: nat)     // request accepted, to this destination
    | Forbidden
    | BadRequest
    | Unavailable

  /** What a slot's policy pointer holds. */
  function PolicyAt(s: Pool, r: Ref): Option<Policy> { if r < |s.slots| then s.slots[r].policy else None }

  predicate Active(s: Pool, r: Ref, a: Assignment) { PolicyAt(s, r).Some? && PolicyAt(s, r).value.assignment == a }

  /** The policy the first two loads give: the slot found by source address in one state, its policy
      in a later one. */
  function Loaded(atSlot: Pool, atPolicy: Pool, src: Ip): Option<Policy> {
    if src in atSlot.byIp then PolicyAt(atPolicy, atSlot.byIp[src]) else None
  }

  /** When a request goes through, and to where. */
  ghost predicate Authorized(atSlot: Pool, atPolicy: Pool, atEnd: Pool, src: Ip, bound: Option<Assignment>,
      request: Request,
    lookup: Option<seq<Option<Address>>>, cancelled: bool, address: Address)
  {
    && Loaded(atSlot, atPolicy, src).Some?
    && bound == Some(Loaded(atSlot, atPolicy, src).value.assignment)
    && WellFormed(request)
    && !Denied(Loaded(atSlot, atPolicy, src).value.terms.rules, request)
    && lookup.Some?
    && FirstPermitted(Loaded(atSlot, atPolicy, src).value.terms, request, lookup.value, address)
    && !cancelled
    && Active(atEnd, atSlot.byIp[src], bound.value)
  }

  /** `p` is the policy of the slot that has the address `src`. */
  ghost predicate Owns(atSlot: Pool, atPolicy: Pool, src: Ip, p: Policy) {
    && src in atSlot.byIp && atSlot.byIp[src] < |atPolicy.slots|
    && atPolicy.slots[atSlot.byIp[src]].policy == Some(p)
  }

  /** The address is not on the deny list, and some rule governs the request, or the allow list has the
      address, or the policy allows by default. */
  ghost predicate MayReach(terms: Terms, request: Request, ip: Address) {
    !Listed(terms.denyOut, ip) && (SomeGoverns(terms.rules, request) || Listed(terms.allowOut, ip)
                                    || terms.defaultAllow)
  }

  /** `ip` is resolved, may be reached, and no address resolved before it may. */
  ghost predicate FirstToReach(terms: Terms, request: Request, addresses: seq<Option<Address>>, i: nat, ip: Address) {
    && i < |addresses| && addresses[i] == Some(ip) && MayReach(terms, request, ip)
    && forall j :: 0 <= j < i && addresses[j].Some? ==> !MayReach(terms, request, addresses[j].value)
  }

  /** What must hold for a request to go through to an address, in the words of the policy. */
  ghost predicate Through(p: Policy, slot: Ref, atEnd: Pool, bound: Option<Assignment>, request: Request,
    lookup: Option<seq<Option<Address>>>, cancelled: bool, address: Address)
  {
    && bound == Some(p.assignment)
    && request.host != "" && request.port != 0 && (forall c :: c in request.host ==> c !in ":/@\\?# \t\r\n")
    && Lower(Trim(request.scheme)) in {"http", "https"}
    && !SomeDenies(p.terms.rules, request)
    && lookup.Some? && (exists i: nat :: FirstToReach(p.terms, request, lookup.value, i, address))
    && !cancelled
    && slot < |atEnd.slots| && atEnd.slots[slot].policy.Some?
    && atEnd.slots[slot].policy.value.assignment == p.assignment
  }

  lemma {:induction false} NoneMayReach(terms: Terms, request: Request, addresses: seq<Option<Address>>, n: nat)
    requires n <= |addresses| && PathsValid(terms.rules)
    ensures NoneOf(terms, request, addresses, n)
            <==> forall j :: 0 <= j < n && addresses[j].Some? ==> !MayReach(terms, request, addresses[j].value)
  {
    if n > 0 {
      NoneMayReach(terms, request, addresses, n - 1);
      PermittedInWords(terms, request, addresses[n - 1]);
    }
  }

  lemma PermittedInWords(terms: Terms, request: Request, ip: Option<Address>)
    requires PathsValid(terms.rules)
    ensures Permitted(terms, request, ip) <==> ip.Some? && MayReach(terms, request, ip.value)
  {
    AllExact(terms.rules, request);
  }

  lemma FirstInWords(terms: Terms, request: Request, addresses: seq<Option<Address>>, ip: Address)
    requires PathsValid(terms.rules)
    ensures FirstPermitted(terms, request, addresses, ip)
            <==> exists i: nat :: FirstToReach(terms, request, addresses, i, ip)
  {
    forall i: nat | i < |addresses|
      ensures FirstAt(terms, request, addresses, i, ip) <==> FirstToReach(terms, request, addresses, i, ip)
    {
      NoneMayReach(terms, request, addresses, i);
      PermittedInWords(terms, request, addresses[i]);
    }
  }

  lemma AuthorizedInWords(atSlot: Pool, atPolicy: Pool, atEnd: Pool, src: Ip, bound: Option<Assignment>,
    request: Request, lookup: Option<seq<Option<Address>>>, cancelled: bool, p: Policy)
    requires Owns(atSlot, atPolicy, src, p) && PathsValid(p.terms.rules)
    ensures forall a: Address ::
              Authorized(atSlot, atPolicy, atEnd, src, bound, request, lookup, cancelled, a)
              <==> Through(p, atSlot.byIp[src], atEnd, bound, request, lookup, cancelled, a)
  {
    AllExact(p.terms.rules, request);
    forall a: Address
      ensures Authorized(atSlot, atPolicy, atEnd, src, bound, request, lookup, cancelled, a)
              <==> Through(p, atSlot.byIp[src], atEnd, bound, request, lookup, cancelled, a)
    {
      if lookup.Some? { FirstInWords(p.terms, request, lookup.value, a); }
    }
  }

  /** The request belongs to the assignment its connection is bound to. */
  predicate Admitted(atSlot: Pool, atPolicy: Pool, src: Ip, bound: Option<Assignment>) {
    Loaded(atSlot, atPolicy, src).Some? && bound == Some(Loaded(atSlot, atPolicy, src).value.assignment)
  }

  /** The verdict on every input: each kind has its exact condition, and what meets none is forbidden. */
  method Check(atSlot: Pool, atPolicy: Pool, atEnd: Pool, src: Ip, bound: Option<Assignment>, http: Option<Request>,
    lookup: Option<seq<Option<Address>>>, cancelled: bool) returns (v: Verdict)
    ensures v.Bound? <==> http.None? && Loaded(atSlot, atPolicy, src).Some?
    ensures v.Bound? ==> v.assignment == Loaded(atSlot, atPolicy, src).value.assignment
    ensures v.Allow? ==> http.Some? && v.port == http.value.port
                         && Authorized(atSlot, atPolicy, atEnd, src, bound, http.value, lookup, cancelled, v.address)
    ensures forall a: Address ::
              http.Some? && Authorized(atSlot, atPolicy, atEnd, src, bound, http.value, lookup, cancelled, a)
              ==> v == Allow(a, http.value.port)
    ensures v.BadRequest? <==> http.Some? && Admitted(atSlot, atPolicy, src, bound) && !WellFormed(http.value)
    ensures v.Unavailable? <==>
              && http.Some? && Admitted(atSlot, atPolicy, src, bound) && WellFormed(http.value)
              && var terms := Loaded(atSlot, atPolicy, src).value.terms;
                 && !Denied(terms.rules, http.value)
                 && (lookup.None? || lookup.value == []
                      || (cancelled && !NoneOf(terms, http.value, lookup.value, |lookup.value|)))
    // in the words of the policy
    ensures http.None? ==> forall p :: Owns(atSlot, atPolicy, src, p) ==> v == Bound(p.assignment)
    ensures v != Forbidden ==> exists p :: Owns(atSlot, atPolicy, src, p)
    ensures http.Some? ==> forall p, a: Address :: Owns(atSlot, atPolicy, src, p) && PathsValid(p.terms.rules) ==>
              (v == Allow(a, http.value.port)
               <==> Through(p, atSlot.byIp[src], atEnd, bound, http.value, lookup, cancelled, a))
  {
    if http.Some? {
      forall p | Owns(atSlot, atPolicy, src, p) && PathsValid(p.terms.rules)
        ensures forall a: Address ::
                  Authorized(atSlot, atPolicy, atEnd, src, bound, http.value, lookup, cancelled, a)
                  <==> Through(p, atSlot.byIp[src], atEnd, bound, http.value, lookup, cancelled, a)
      {
        AuthorizedInWords(atSlot, atPolicy, atEnd, src, bound, http.value, lookup, cancelled, p);
      }
    }
    if src !in atSlot.byIp { return Forbidden; }
    var r := atSlot.byIp[src];
    var policy := PolicyAt(atPolicy, r);
    if policy.None? { return Forbidden; }
    assert Owns(atSlot, atPolicy, src, policy.value);
    if http.None? { return Bound(policy.value.assignment); }
    if bound != Some(policy.value.assignment) { return Forbidden; }
    var request, terms := http.value, policy.value.terms;
    if !WellFormed(request) { return BadRequest; }
    var rule := MatchingEgressRule(terms.rules, request);
    if rule.Some? && Denies(terms.rules[rule.value]) { return Forbidden; }
    if lookup.None? || |lookup.value| == 0 { return Unavailable; }
    var address := ChooseAddress(terms, request, rule.Some?, lookup.value);
    FirstDecides(terms, request, lookup.value, address);
    if address.None? { return Forbidden; }
    if cancelled { return Unavailable; }
    if !Active(atEnd, r, bound.value) { return Forbidden; }
    v := Allow(address.value, request.port);
  }

  /** The address chosen is the only one that can be the first permitted. */
  lemma FirstDecides(terms: Terms, request: Request, addresses: seq<Option<Address>>, chosen: Option<Address>)
    requires chosen.Some? ==> FirstPermitted(terms, request, addresses, chosen.value)
    requires chosen.None? ==> NoneOf(terms, request, addresses, |addresses|)
    ensures forall a: Address :: FirstPermitted(terms, request, addresses, a) ==> chosen == Some(a)
  {
    forall a: Address | FirstPermitted(terms, request, addresses, a) ensures chosen == Some(a) {
      var i :| FirstAt(terms, request, addresses, i, a);
      if chosen.None? {
        FirstIsUnique(terms, request, addresses, i, a, |addresses|);
      } else {
        var j :| FirstAt(terms, request, addresses, j, chosen.value);
        FirstIsUnique(terms, request, addresses, i, a, j);
        FirstIsUnique(terms, request, addresses, j, chosen.value, i);
      }
    }
  }

  // ---------------------------------------------------------------------------------------------
  // Whole runs
  // ---------------------------------------------------------------------------------------------

  ghost predicate Next(s: Pool, z: Pool) { exists e :: CanStep(s, e) && z == After(s, e) }

  ghost predicate IsRun(run: seq<Pool>) {
    && |run| > 0 && run[0] == Empty(run[0].capacity, run[0].egress)
    && forall i :: 0 <= i < |run| - 1 ==> Next(run[i], run[i + 1])
  }

  lemma {:induction false} RunKeepsInv(run: seq<Pool>, i: nat)
    requires IsRun(run) && i < |run|
    ensures Inv(run[i])
  {
    if i > 0 {
      RunKeepsInv(run, i - 1);
      assert Next(run[i - 1], run[i - 1 + 1]);
      var e :| CanStep(run[i - 1], e) && run[i] == After(run[i - 1], e);
      StepKeepsInv(run[i - 1], e);
    }
  }

  /** No two callers ever hold one slot. */
  lemma OneHolder(run: seq<Pool>, i: nat, c: Caller, d: Caller, r: Ref)
    requires IsRun(run) && i < |run| && Holds(run[i], c, r) && Holds(run[i], d, r)
    ensures c == d
  {
    RunKeepsInv(run, i);
    assert Holding(c, r) in run[i].holders && Holding(d, r) in run[i].holders;
  }

  /** Slot recycling, in every state of every run. A warm slot is in the queue once, no caller holds it,
      it is assigned to no sandbox, without a policy, and no source address leads to it. */
  lemma WarmSlotsAreClean(run: seq<Pool>, i: nat, n: nat)
    requires IsRun(run) && i < |run| && n < |run[i].warm|
    ensures var s, r := run[i], run[i].warm[n];
            && r < |s.slots| && !s.slots[r].retired && s.slots[r].sandbox.None? && s.slots[r].policy.None?
            && (forall c :: !Holds(s, c, r))
            && (forall ip :: ip in s.byIp ==> s.byIp[ip] != r)
            && (forall m :: 0 <= m < |s.warm| && m != n ==> s.warm[m] != r)
  {
    RunKeepsInv(run, i);
    var s, r := run[i], run[i].warm[n];
    assert r in s.warm && Kept(s, s.slots[r], true);
    forall c ensures !Holds(s, c, r) {
      if Holding(c, r) in s.holders { assert false; }
    }
    forall m | 0 <= m < |s.warm| && m != n ensures s.warm[m] != r {
      assert m < n ==> s.warm[m] != s.warm[n];
    }
  }

  /** A slot id is issued again only after the earlier slot was torn down: of two Slot objects with one
      id the older is retired, without address and namespace, so live ones never share an id. */
  lemma IdsReissuedAfterTeardown(run: seq<Pool>, i: nat, q: Ref, r: Ref)
    requires IsRun(run) && i < |run| && q < r < |run[i].slots| && run[i].slots[q].id == run[i].slots[r].id
    ensures run[i].slots[q].retired && !run[i].slots[q].cni.Up? && !run[i].slots[q].netns
  {
    RunKeepsInv(run, i);
    assert Apart(run[i].slots[q], run[i].slots[r]) && Kept(run[i], run[i].slots[q], q in run[i].warm);
  }

  /** The address of a slot in use is nobody else's. */
  lemma AddressesDistinct(run: seq<Pool>, i: nat, q: Ref, r: Ref)
    requires IsRun(run) && i < |run| && q < |run[i].slots| && r < |run[i].slots|
    requires run[i].slots[q].cni.Up? && run[i].slots[q].cni == run[i].slots[r].cni
    ensures q == r
  {
    RunKeepsInv(run, i);
    assert q < r ==> Apart(run[i].slots[q], run[i].slots[r]);
    assert r < q ==> Apart(run[i].slots[r], run[i].slots[q]);
  }

  /** One step does not revive an assignment that was issued before and is not active. */
  lemma StepRevivesNone(s: Pool, e: Step, r: Ref, a: Assignment)
    requires Inv(s) && CanStep(s, e) && a < s.issued && Active(After(s, e), r, a)
    ensures Active(s, r, a) && PolicyAt(After(s, e), r).value.sandbox == PolicyAt(s, r).value.sandbox
    ensures forall c :: Holds(After(s, e), c, r) <==> Holds(s, c, r)
  {
    StepKeepsInv(s, e);
    assert r < |s.slots| ==> Kept(s, s.slots[r], r in s.warm);
    assert Kept(After(s, e), After(s, e).slots[r], r in After(s, e).warm);
    assert e.Pop? ==> s.warm[0] in s.warm;
  }

  /** Addresses do not move: once up, a slot keeps its address until it is taken down for good. */
  lemma StepKeepsAddress(s: Pool, e: Step, r: Ref)
    requires CanStep(s, e) && r < |s.slots| && !s.slots[r].cni.Unwired?
    ensures r < |After(s, e).slots|
    ensures After(s, e).slots[r].cni.Down? || After(s, e).slots[r].cni == s.slots[r].cni
  {
  }

  lemma ActiveIsIssued(run: seq<Pool>, i: nat, r: Ref, a: Assignment)
    requires IsRun(run) && i < |run| && Active(run[i], r, a)
    ensures a < run[i].issued && run[i].slots[r].sandbox == Some(PolicyAt(run[i], r).value.sandbox)
  {
    RunKeepsInv(run, i);
    assert Kept(run[i], run[i].slots[r], r in run[i].warm);
  }

  /** One moment back: an assignment issued before was active before, for the same sandbox. */
  lemma OneBack(run: seq<Pool>, i: nat, r: Ref, a: Assignment)
    requires IsRun(run) && i + 1 < |run| && a < run[i].issued && Active(run[i + 1], r, a)
    ensures Active(run[i], r, a) && PolicyAt(run[i + 1], r).value.sandbox == PolicyAt(run[i], r).value.sandbox
    ensures forall c :: Holds(run[i + 1], c, r) <==> Holds(run[i], c, r)
  {
    RunKeepsInv(run, i);
    assert Next(run[i], run[i + 1]);
    var e :| CanStep(run[i], e) && run[i + 1] == After(run[i], e);
    StepRevivesNone(run[i], e, r, a);
  }

  /** An assignment active at two moments was active at every moment between, for the same sandbox and
      in the same hands: clearing revokes it for good. */
  lemma {:induction false} NeverRevoked(run: seq<Pool>, r: Ref, a: Assignment, i: nat, k: nat, j: nat)
    requires IsRun(run) && i <= k <= j < |run| && Active(run[i], r, a) && Active(run[j], r, a)
    ensures Active(run[k], r, a) && PolicyAt(run[k], r).value.sandbox == PolicyAt(run[j], r).value.sandbox
    ensures forall c :: Holds(run[k], c, r) <==> Holds(run[j], c, r)
    decreases j - k
  {
    if k < j {
      NeverRevoked(run, r, a, i, k + 1, j);
      ActiveIsIssued(run, i, r, a);
      IssuedGrows(run, i, k);
      OneBack(run, k, r, a);
    }
  }

  lemma {:induction false} IssuedGrows(run: seq<Pool>, i: nat, j: nat)
    requires IsRun(run) && i <= j < |run|
    ensures run[i].issued <= run[j].issued
    decreases j - i
  {
    if i < j {
      IssuedGrows(run, i, j - 1);
      assert Next(run[j - 1], run[j - 1 + 1]);
    }
  }

  lemma {:induction false} AddressStays(run: seq<Pool>, r: Ref, i: nat, j: nat)
    requires IsRun(run) && i <= j < |run| && r < |run[i].slots| && !run[i].slots[r].cni.Unwired?
    ensures r < |run[j].slots| && (run[j].slots[r].cni.Down? || run[j].slots[r].cni == run[i].slots[r].cni)
    decreases j - i
  {
    if i < j {
      AddressStays(run, r, i, j - 1);
      assert Next(run[j - 1], run[j - 1 + 1]);
      var e :| CanStep(run[j - 1], e) && run[j] == After(run[j - 1], e);
      StepKeepsAddress(run[j - 1], e, r);
    }
  }

  lemma OneSlotNow(s: Pool, q: Ref, r: Ref, a: Assignment)
    requires Inv(s) && Active(s, q, a) && Active(s, r, a)
    ensures q == r
  {
    assert q < r ==> Apart(s.slots[q], s.slots[r]);
    assert r < q ==> Apart(s.slots[r], s.slots[q]);
  }

  /** No two slots ever hold one assignment, not even one after the other. */
  lemma {:induction false} AssignmentHasOneSlot(run: seq<Pool>, q: Ref, r: Ref, a: Assignment, i: nat, j: nat)
    requires IsRun(run) && i <= j < |run| && Active(run[i], q, a) && Active(run[j], r, a)
    ensures q == r
    decreases j - i
  {
    if i == j {
      RunKeepsInv(run, i);
      OneSlotNow(run[i], q, r, a);
    } else {
      ActiveIsIssued(run, i, q, a);
      IssuedGrows(run, i, j - 1);
      OneBack(run, j - 1, r, a);
      AssignmentHasOneSlot(run, q, r, a, i, j - 1);
    }
  }

  /** Assignment safety. A connection from `src` was bound (its loads saw states b0 and b1) and a
      request on it was authorised (its loads saw h0, h1 and h2), while the pool went through any run
      at all. Then at every moment from the binding to the last load one and the same slot had the
      connection's address, was in the hands of one and the same caller, was assigned to one and the same
      sandbox, and had that assignment active: it was never cleared in between. */
  lemma AllowedOwnerNeverChanged(run: seq<Pool>, src: Ip, b0: nat, b1: nat, h0: nat, h1: nat, h2: nat,
    request: Request, lookup: Option<seq<Option<Address>>>, cancelled: bool, address: Address, k: nat)
    requires IsRun(run) && b0 <= b1 <= h0 <= h1 <= h2 < |run| && b1 <= k <= h2
    requires Loaded(run[b0], run[b1], src).Some?
    requires var bound := Some(Loaded(run[b0], run[b1], src).value.assignment);
             Authorized(run[h0], run[h1], run[h2], src, bound, request, lookup, cancelled, address)
    ensures var r, p := run[b0].byIp[src], Loaded(run[b0], run[b1], src).value;
            && r == run[h0].byIp[src] && r < |run[k].slots|
            && Active(run[k], r, p.assignment)
            && (forall c :: Holds(run[k], c, r) <==> Holds(run[b1], c, r)) && (exists c :: Holds(run[k], c, r))
            && run[k].slots[r].sandbox == Some(p.sandbox)
            && run[k].slots[r].cni == Up(src)
  {
    var r, p := run[b0].byIp[src], Loaded(run[b0], run[b1], src).value;
    var a, q := p.assignment, run[h0].byIp[src];
    assert Active(run[b1], r, a) && Active(run[h2], q, a);
    AssignmentHasOneSlot(run, r, q, a, b1, h2);
    NeverRevoked(run, r, a, b1, k, h2);
    NeverRevoked(run, r, a, b1, b1, h2);
    RunKeepsInv(run, b0);
    RunKeepsInv(run, b1);
    RunKeepsInv(run, k);
    assert run[b0].slots[r].cni == Up(src);
    AddressStays(run, r, b0, k);
    assert Kept(run[k], run[k].slots[r], r in run[k].warm) && Kept(run[b1], run[b1].slots[r], r in run[b1].warm);
  }
}
