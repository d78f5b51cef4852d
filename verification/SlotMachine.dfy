/** Network slots, the warm queue, the slot-id allocator and the egress index by source address
    (internal/netstack), as a machine of atomic steps that any number of callers take at once. The
    guard of a step is what its taker must have established; SlotPool proves that the pool's code
    does. */
module SlotMachine {
  import opened Domain
  import EgressRules

  type Ref = nat          // identity of a Slot object
  type Caller = nat       // a worker of the pool, or whoever holds the lifecycle lock of one sandbox
  type Assignment = nat   // a random assignment id, never drawn twice

  datatype Policy = Policy(sandbox: Id, assignment: Assignment, terms: EgressRules.Terms)

  /** The CNI attachment of a slot: not set up yet, up with an address, or taken down. */
  datatype Cni = Unwired | Up(ip: Ip) | Down

  /** `retired`: the id went back to the allocator. */
  datatype Slot = Slot(id: nat, sandbox: Option<Id>, cni: Cni, netns: bool, policy: Option<Policy>, retired: bool)

  /** A caller has a reference to a slot and may use it. */
  datatype Holding = Holding(who: Caller, r: Ref)

  datatype Pool = Pool(
    slots: seq<Slot>,      // every Slot object ever made, by Ref; a concurrent Check may still have any of them
    warm: seq<Ref>,
    capacity: nat,
    closed: bool,
    used: set<nat>,        // ids in use
    byIp: map<Ip, Ref>,    // slotsByIP
    issued: Assignment,    // assignment ids drawn so far
    egress: bool,          // whether an egress controller is configured
    holders: set<Holding>)

  datatype Step =
    | New(who: Caller, id: nat)                        // an id from the allocator and a Slot object around it
    | MakeNs(who: Caller, r: Ref)
    | Wire(who: Caller, r: Ref, ip: Ip)                // CNI setup, recorded in the slot
    | Push(who: Caller, r: Ref)
    | Pop(who: Caller, r: Ref)
    | Shut(who: Caller)                                // the warm queue closes
    | Assign(who: Caller, r: Ref, sandbox: Id)
    | Store(who: Caller, r: Ref, sandbox: Id, terms: EgressRules.Terms)
    | Index(who: Caller, r: Ref)                       // slotsByIP.Store
    | Erase(who: Caller, r: Ref)                       // the policy pointer becomes nil
    | Unindex(who: Caller, r: Ref)                     // slotsByIP.CompareAndDelete
    | Unassign(who: Caller, r: Ref)
    | Unwire(who: Caller, r: Ref)                      // a successful CNI teardown, recorded in the slot
    | DropNs(who: Caller, r: Ref)
    | Retire(who: Caller, r: Ref)                      // the id goes back to the allocator

  predicate Holds(s: Pool, who: Caller, r: Ref) { Holding(who, r) in s.holders }

  predicate Indexed(s: Pool, r: Ref) {
    r < |s.slots| && s.slots[r].cni.Up? && s.slots[r].cni.ip in s.byIp && s.byIp[s.slots[r].cni.ip] == r
  }

  /** What the holder of a slot sees of the machine. */
  datatype Hold = Hold(slot: Slot, indexed: bool)

  function HoldOf(s: Pool, r: Ref): Hold
    requires r < |s.slots|
  {
    Hold(s.slots[r], Indexed(s, r))
  }

  /** The part of a step's guard that the holder of its slot can see. */
  predicate May(h: Hold, e: Step, egress: bool) {
    match e
    case Wire(_, _, _) => h.slot.cni.Unwired?
    case Push(_, _) => h.slot.cni.Up? && h.slot.netns && h.slot.sandbox.None? && h.slot.policy.None? && !h.indexed
    case Assign(_, _, _) => h.slot.policy.None?
    case Store(_, _, id, _) => egress && h.slot.cni.Up? && h.slot.sandbox == Some(id)
    case Index(_, _) => egress && h.slot.cni.Up? && h.slot.policy.Some?
    case Unassign(_, _) => h.slot.policy.None?
    case Unwire(_, _) => h.slot.policy.None? && !h.indexed
    case Retire(_, _) => !h.slot.cni.Up? && !h.slot.netns && h.slot.sandbox.None? && h.slot.policy.None?
    case _ => true
  }

  /** A step on one slot that its holder takes. */
  predicate OnSlot(e: Step) { !e.New? && !e.Shut? && !e.Pop? }

  predicate CanStep(s: Pool, e: Step) {
    if e.New? then e.id !in s.used
    else if e.Shut? then true
    else if e.Pop? then !s.closed && s.warm != [] && s.warm[0] == e.r && e.r < |s.slots|
    else
      && e.r < |s.slots| && Holds(s, e.who, e.r) && May(HoldOf(s, e.r), e, s.egress)
      && (e.Wire? ==> Unleased(s, e.ip))
      && (e.Push? ==> !s.closed && |s.warm| < s.capacity)
  }

  /** No slot has the address: the network plugin hands out only such. */
  predicate Unleased(s: Pool, ip: Ip) { forall t :: t in s.slots ==> t.cni != Up(ip) }

  /** The assignment a new policy gets: the old one when the slot's policy is for the same sandbox. */
  function AssignmentFor(s: Pool, r: Ref, sandbox: Id): Assignment
    requires r < |s.slots|
  {
    var was := s.slots[r].policy;
    if was.Some? && was.value.sandbox == sandbox then was.value.assignment else s.issued
  }

  /** The effect of a step on its own slot. */
  function SlotAfter(s: Pool, e: Step): Slot
    requires OnSlot(e) && e.r < |s.slots|
  {
    var t := s.slots[e.r];
    match e
    case MakeNs(_, _) => t.(netns := true)
    case Wire(_, _, ip) => t.(cni := Up(ip))
    case Assign(_, _, id) => t.(sandbox := Some(id))
    case Store(_, r, id, terms) => t.(policy := Some(Policy(id, AssignmentFor(s, r, id), terms)))
    case Erase(_, _) => t.(policy := None)
    case Unassign(_, _) => t.(sandbox := None)
    case Unwire(_, _) => t.(cni := Down)
    case DropNs(_, _) => t.(netns := false)
    case Retire(_, _) => t.(retired := true)
    case _ => t
  }

  function After(s: Pool, e: Step): Pool
    requires CanStep(s, e)
  {
    if e.New? then
      s.(slots := s.slots + [Slot(e.id, None, Unwired, false, None, false)], used := s.used + {e.id},
         holders := s.holders + {Holding(e.who, |s.slots|)})
    else if e.Shut? then s.(closed := true)
    else if e.Pop? then s.(warm := s.warm[1..], holders := s.holders + {Holding(e.who, e.r)})
    else s.(slots := s.slots[e.r := SlotAfter(s, e)],
            warm := if e.Push? then s.warm + [e.r] else s.warm,
            used := if e.Retire? then s.used - {s.slots[e.r].id} else s.used,
            byIp := if e.Index? then s.byIp[s.slots[e.r].cni.ip := e.r]
                    else if e.Unindex? && Indexed(s, e.r) then s.byIp - {s.slots[e.r].cni.ip} else s.byIp,
            issued := if e.Store? then s.issued + 1 else s.issued,
            holders := if e.Push? || e.Retire? then s.holders - {Holding(e.who, e.r)} else s.holders)
  }

  // ---------------------------------------------------------------------------------------------
  // The invariant
  // ---------------------------------------------------------------------------------------------

  /** What the fields of one slot say about each other; `warm` tells whether it is in the queue. */
  ghost predicate Kept(s: Pool, t: Slot, warm: bool) {
    && (t.policy.Some? ==> s.egress && !warm && !t.retired && t.cni.Up? && t.sandbox == Some(t.policy.value.sandbox)
                           && t.policy.value.assignment < s.issued)
    && (warm ==> !t.retired && t.sandbox.None? && t.policy.None? && t.cni.Up? && t.netns)
    && (t.retired ==> t.sandbox.None? && t.policy.None? && !t.cni.Up? && !t.netns)
    && (!t.retired ==> t.id in s.used)
  }

  /** Two slots, the older first, share no address and no assignment, and share an id only if the
      older one is retired. */
  ghost predicate Apart(t: Slot, u: Slot) {
    && (t.cni.Up? && u.cni.Up? ==> t.cni.ip != u.cni.ip)
    && (t.id == u.id ==> t.retired)
    && (t.policy.Some? && u.policy.Some? ==> t.policy.value.assignment != u.policy.value.assignment)
  }

  /** An indexed address leads to the slot that has it, which is neither warm nor retired. */
  ghost predicate IndexInv(s: Pool) {
    && (forall k :: k in s.byIp ==> s.byIp[k] < |s.slots| && s.slots[s.byIp[k]].cni == Up(k) && s.byIp[k] !in s.warm)
    && (!s.egress ==> s.byIp == map[])
  }

  /** The queue holds no slot twice and no retired one. */
  ghost predicate QueueInv(s: Pool) {
    && |s.warm| <= s.capacity
    && (forall i :: 0 <= i < |s.warm| ==> s.warm[i] < |s.slots| && !s.slots[s.warm[i]].retired)
    && (forall i, j :: 0 <= i < j < |s.warm| ==> s.warm[i] != s.warm[j])
  }

  /** A slot is in the queue, retired, or in the hands of exactly one caller. */
  ghost predicate HolderInv(s: Pool) {
    && (forall h :: h in s.holders ==> h.r < |s.slots| && !s.slots[h.r].retired && h.r !in s.warm)
    && (forall g, h :: g in s.holders && h in s.holders && g.r == h.r ==> g == h)
    && (forall r :: 0 <= r < |s.slots| && !s.slots[r].retired && r !in s.warm ==> exists c :: Holds(s, c, r))
  }

  ghost predicate Inv(s: Pool) {
    && (forall r :: 0 <= r < |s.slots| ==> Kept(s, s.slots[r], r in s.warm))
    && (forall q, r :: 0 <= q < r < |s.slots| ==> Apart(s.slots[q], s.slots[r]))
    && (forall id :: id in s.used ==> InUse(s, id))
    && IndexInv(s) && QueueInv(s) && HolderInv(s)
  }

  function Empty(capacity: nat, egress: bool): Pool { Pool([], [], capacity, false, {}, map[], 0, egress, {}) }

  /** Only a pop takes a slot from the queue and only a push puts one there. */
  lemma WarmAfter(s: Pool, e: Step, r: Ref)
    requires QueueInv(s) && CanStep(s, e)
    ensures r in After(s, e).warm <==> (r in s.warm && !(e.Pop? && e.r == r)) || (e.Push? && e.r == r)
  {
    if e.Pop? { assert s.warm == [s.warm[0]] + s.warm[1..]; }
  }

  lemma KeepsOwnKept(s: Pool, e: Step)
    requires Inv(s) && CanStep(s, e) && OnSlot(e)
    ensures Kept(After(s, e), SlotAfter(s, e), e.r in After(s, e).warm)
  {
    WarmAfter(s, e, e.r);
    assert Kept(s, s.slots[e.r], e.r in s.warm);
    assert Holding(e.who, e.r) in s.holders;
    assert After(s, e).issued >= s.issued && After(s, e).egress == s.egress;
  }

  lemma KeepsOtherKept(s: Pool, e: Step, r: Ref)
    requires Inv(s) && CanStep(s, e) && OnSlot(e) && r < |s.slots| && r != e.r
    ensures Kept(After(s, e), s.slots[r], r in s.warm)
  {
    assert Kept(s, s.slots[r], r in s.warm);
    HolderOnly(s, e);
    assert r < e.r ==> Apart(s.slots[r], s.slots[e.r]);
    assert e.r < r ==> Apart(s.slots[e.r], s.slots[r]);
  }

  lemma KeepsKept(s: Pool, e: Step, r: Ref)
    requires Inv(s) && CanStep(s, e) && r < |After(s, e).slots|
    ensures Kept(After(s, e), After(s, e).slots[r], r in After(s, e).warm)
  {
    WarmAfter(s, e, r);
    if r < |s.slots| {
      assert Kept(s, s.slots[r], r in s.warm);
      if OnSlot(e) {
        if r == e.r { KeepsOwnKept(s, e); } else { KeepsOtherKept(s, e, r); }
      }
    }
  }

  /** A step keeps its own slot apart from any other, older or newer. */
  lemma KeepsOwnApart(s: Pool, e: Step, q: Ref)
    requires Inv(s) && CanStep(s, e) && OnSlot(e) && q < |s.slots| && q != e.r
    ensures q < e.r ==> Apart(s.slots[q], SlotAfter(s, e))
    ensures e.r < q ==> Apart(SlotAfter(s, e), s.slots[q])
  {
    assert Kept(s, s.slots[q], q in s.warm) && Kept(s, s.slots[e.r], e.r in s.warm);
    assert q < e.r ==> Apart(s.slots[q], s.slots[e.r]);
    assert e.r < q ==> Apart(s.slots[e.r], s.slots[q]);
    assert e.Wire? ==> s.slots[q] in s.slots;
  }

  lemma KeepsApart(s: Pool, e: Step, q: Ref, r: Ref)
    requires Inv(s) && CanStep(s, e) && q < r < |After(s, e).slots|
    ensures Apart(After(s, e).slots[q], After(s, e).slots[r])
  {
    if r < |s.slots| {
      assert Apart(s.slots[q], s.slots[r]);
      if OnSlot(e) {
        if q == e.r { KeepsOwnApart(s, e, r); } else if r == e.r { KeepsOwnApart(s, e, q); }
      }
    } else {
      assert Kept(s, s.slots[q], q in s.warm);
    }
  }

  /** Some live slot has the id. */
  ghost predicate InUse(s: Pool, id: nat) {
    exists r :: 0 <= r < |s.slots| && s.slots[r].id == id && !s.slots[r].retired
  }

  lemma KeepsUsed(s: Pool, e: Step, id: nat)
    requires CanStep(s, e) && id in After(s, e).used && (id in s.used ==> InUse(s, id))
    ensures InUse(After(s, e), id)
  {
    var z := After(s, e);
    if id in s.used {
      var r :| 0 <= r < |s.slots| && s.slots[r].id == id && !s.slots[r].retired;
      assert z.slots[r].id == id && !z.slots[r].retired;
    } else {
      assert z.slots[|s.slots|].id == id;
    }
  }

  lemma KeepsIndexed(s: Pool, e: Step, k: Ip)
    requires IndexInv(s) && QueueInv(s) && CanStep(s, e) && k in After(s, e).byIp
    requires OnSlot(e) ==> e.r !in s.warm
    ensures var z := After(s, e); z.byIp[k] < |z.slots| && z.slots[z.byIp[k]].cni == Up(k) && z.byIp[k] !in z.warm
  {
    var z := After(s, e);
    WarmAfter(s, e, z.byIp[k]);
    if k in s.byIp && s.byIp[k] == z.byIp[k] {
      assert Indexed(s, s.byIp[k]);
      assert OnSlot(e) && e.r != z.byIp[k] ==> z.slots[z.byIp[k]] == s.slots[z.byIp[k]];
    }
  }

  lemma HolderOnly(s: Pool, e: Step)
    requires HolderInv(s) && CanStep(s, e) && OnSlot(e)
    ensures e.r !in s.warm && !s.slots[e.r].retired && forall h :: h in s.holders && h.r == e.r ==> h.who == e.who
  {
    assert Holding(e.who, e.r) in s.holders;
  }

  lemma KeepsIndex(s: Pool, e: Step)
    requires Inv(s) && CanStep(s, e)
    ensures IndexInv(After(s, e))
  {
    if OnSlot(e) { HolderOnly(s, e); }
    forall k | k in After(s, e).byIp
      ensures var z := After(s, e); z.byIp[k] < |z.slots| && z.slots[z.byIp[k]].cni == Up(k) && z.byIp[k] !in z.warm
    {
      KeepsIndexed(s, e, k);
    }
  }

  lemma KeepsQueue(s: Pool, e: Step)
    requires QueueInv(s) && HolderInv(s) && CanStep(s, e)
    ensures QueueInv(After(s, e))
  {
    if OnSlot(e) { HolderOnly(s, e); }
  }

  /** Every holding after a step is of a live slot outside the queue. */
  lemma KeepsHolding(s: Pool, e: Step, h: Holding)
    requires QueueInv(s) && HolderInv(s) && CanStep(s, e) && h in After(s, e).holders
    ensures h.r < |After(s, e).slots| && !After(s, e).slots[h.r].retired && h.r !in After(s, e).warm
    ensures h.r < |s.slots| && !(e.Pop? && e.r == h.r) ==> h in s.holders
  {
    WarmAfter(s, e, h.r);
    if OnSlot(e) { HolderOnly(s, e); }
    if e.New? && h !in s.holders { assert |s.slots| !in s.warm; }
  }

  lemma KeepsHeld(s: Pool, e: Step, r: Ref)
    requires QueueInv(s) && HolderInv(s) && CanStep(s, e)
    requires r < |After(s, e).slots| && !After(s, e).slots[r].retired && r !in After(s, e).warm
    ensures exists c :: Holds(After(s, e), c, r)
  {
    var z := After(s, e);
    WarmAfter(s, e, r);
    if (e.New? && r == |s.slots|) || (e.Pop? && r == e.r) {
      assert Holds(z, e.who, r);
    } else {
      var c :| Holds(s, c, r);
      assert Holds(z, c, r);
    }
  }

  lemma KeepsHolders(s: Pool, e: Step)
    requires Inv(s) && CanStep(s, e)
    ensures HolderInv(After(s, e))
  {
    var z := After(s, e);
    forall h | h in z.holders ensures h.r < |z.slots| && !z.slots[h.r].retired && h.r !in z.warm {
      KeepsHolding(s, e, h);
    }
    forall g, h | g in z.holders && h in z.holders && g.r == h.r ensures g == h {
      KeepsHolding(s, e, g);
      KeepsHolding(s, e, h);
      assert e.Pop? ==> s.warm[0] in s.warm;
    }
    forall r | 0 <= r < |z.slots| && !z.slots[r].retired && r !in z.warm ensures exists c :: Holds(z, c, r) {
      KeepsHeld(s, e, r);
    }
  }

  lemma StepKeepsInv(s: Pool, e: Step)
    requires Inv(s) && CanStep(s, e)
    ensures Inv(After(s, e))
  {
    var z := After(s, e);
    forall r | 0 <= r < |z.slots| ensures Kept(z, z.slots[r], r in z.warm) { KeepsKept(s, e, r); }
    forall q, r | 0 <= q < r < |z.slots| ensures Apart(z.slots[q], z.slots[r]) { KeepsApart(s, e, q, r); }
    forall id | id in z.used ensures InUse(z, id) { KeepsUsed(s, e, id); }
    KeepsIndex(s, e);
    KeepsQueue(s, e);
    KeepsHolders(s, e);
  }

  lemma OthersKeepIndexed(s: Pool, e: Step, me: Ref)
    requires CanStep(s, e) && me < |s.slots| && (e.Index? || e.Unindex?) && e.r != me
    requires s.slots[me].cni.Up? && s.slots[e.r].cni.Up? ==> s.slots[me].cni.ip != s.slots[e.r].cni.ip
    ensures Indexed(After(s, e), me) == Indexed(s, me)
  {
  }

  /** Exclusive ownership: no step of another caller is on a slot this caller holds. */
  lemma OthersElsewhere(s: Pool, e: Step, who: Caller, me: Ref)
    requires Inv(s) && CanStep(s, e) && Holds(s, who, me) && e.who != who && !e.New? && !e.Shut?
    ensures e.r != me
  {
    assert Holding(who, me) in s.holders;
    if e.Pop? { assert s.warm[0] in s.warm; } else { HolderOnly(s, e); }
  }

  /** So whatever other callers do, a caller keeps the slots it holds and what it sees of them. */
  lemma OthersKeepHold(s: Pool, e: Step, who: Caller, me: Ref)
    requires Inv(s) && CanStep(s, e) && Holds(s, who, me) && e.who != who
    ensures Holds(After(s, e), who, me) && me < |s.slots| <= |After(s, e).slots|
            && HoldOf(After(s, e), me) == HoldOf(s, me)
  {
    assert Holding(who, me) in s.holders;
    if !e.New? && !e.Shut? { OthersElsewhere(s, e, who, me); }
    assert After(s, e).slots[me] == s.slots[me];
    if e.Index? || e.Unindex? {
      assert me < e.r ==> Apart(s.slots[me], s.slots[e.r]);
      assert e.r < me ==> Apart(s.slots[e.r], s.slots[me]);
      OthersKeepIndexed(s, e, me);
    } else {
      assert After(s, e).byIp == s.byIp;
    }
  }
}
