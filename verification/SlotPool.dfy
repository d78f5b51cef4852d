/** The pool's operations (internal/netstack/pool.go), each proved while other callers take any steps
    they may between any two steps of its own. */
module SlotPool {
  import opened Domain
  import opened SlotMachine
  import EgressRules

  const FIRST_ID := 2
  const MAX_SLOTS := 4000

  /** Which parts of a teardown fail: the guest tap, the CNI plugin, the namespace. */
  datatype TeardownFaults = TeardownFaults(tap: bool, cni: bool, ns: bool)

  /** `ns` says whether making the namespace fails and, if so, whether it is left behind; `ip` is the
      address CNI offers, if setup succeeds. */
  datatype CreateFaults = CreateFaults(cancelled: bool, late: bool, ns: Option<bool>, ip: Option<Ip>, tap: bool,
      down: TeardownFaults)

  datatype GetFaults = GetFaults(invalid: bool, cancelled: bool, late: bool, rules: bool, notReady: bool,
      down: TeardownFaults)

  datatype ReleaseFaults = ReleaseFaults(cancelled: bool, rules: bool, conntrack: bool, unhealthy: bool,
      down: TeardownFaults)

  /** Refused: nothing happened. Pooled or Dropped: the pool has the slot, or it is gone, and the
      caller must not use it again. Stuck: an error; the caller still owns the slot and may retry. */
  datatype Released = Refused | Pooled | Dropped | Stuck

  /** What a teardown leaves of a slot. */
  function Remains(t: Slot, f: TeardownFaults): Slot {
    t.(sandbox := None, cni := if f.cni then t.cni else Down, netns := t.netns && (f.cni || f.ns))
  }

  /** A slot without any trace of a sandbox. */
  ghost predicate Clean(h: Hold) { h.slot.sandbox.None? && h.slot.policy.None? && !h.indexed }

  /** The effect of a step on what its holder sees. */
  function HoldAfter(h: Hold, e: Step): Hold {
    match e
    case MakeNs(_, _) => h.(slot := h.slot.(netns := true))
    case Assign(_, _, id) => h.(slot := h.slot.(sandbox := Some(id)))
    case Index(_, _) => h.(indexed := true)
    case Erase(_, _) => h.(slot := h.slot.(policy := None))
    case Unindex(_, _) => h.(indexed := false)
    case Unassign(_, _) => h.(slot := h.slot.(sandbox := None))
    case Unwire(_, _) => h.(slot := h.slot.(cni := Down))
    case DropNs(_, _) => h.(slot := h.slot.(netns := false))
    case _ => h
  }

  /** A step after which the caller still holds the slot, and that needs nothing of the shared state. */
  predicate Simple(e: Step) {
    e.MakeNs? || e.Assign? || e.Index? || e.Erase? || e.Unindex? || e.Unassign? || e.Unwire? || e.DropNs?
  }

  lemma OwnStep(s: Pool, e: Step)
    requires Inv(s) && CanStep(s, e) && Simple(e)
    ensures Holds(After(s, e), e.who, e.r) && HoldOf(After(s, e), e.r) == HoldAfter(HoldOf(s, e.r), e)
  {
  }

  /** What no step undoes. */
  ghost predicate Grown(s: Pool, z: Pool) {
    z.egress == s.egress && z.capacity == s.capacity && z.issued >= s.issued && |z.slots| >= |s.slots|
  }

  /** The caller still holds the slot and sees the same of it. */
  ghost predicate Keeps(s: Pool, z: Pool, who: Caller, r: Ref) {
    Holds(z, who, r) && r < |s.slots| && r < |z.slots| && HoldOf(z, r) == HoldOf(s, r)
  }

  /** What the caller holds is as it was. */
  ghost predicate Undisturbed(s: Pool, z: Pool, who: Caller) {
    forall r: Ref :: Holds(s, who, r) ==> Keeps(s, z, who, r)
  }

  lemma StayUndisturbed(s: Pool, y: Pool, z: Pool, who: Caller)
    requires Undisturbed(s, y, who) && Undisturbed(y, z, who)
    ensures Undisturbed(s, z, who)
  {
    forall r: Ref | Holds(s, who, r) ensures Keeps(s, z, who, r) { assert Keeps(s, y, who, r) && Keeps(y, z, who, r); }
  }

  /** Nobody holds the slot. */
  ghost predicate Unheld(s: Pool, r: Ref) { forall c :: !Holds(s, c, r) }

  /** The caller holds the slot and nobody else does. */
  ghost predicate HoldsAlone(s: Pool, who: Caller, r: Ref) { forall c :: Holds(s, c, r) <==> c == who }

  lemma Alone(s: Pool, who: Caller, r: Ref)
    requires Inv(s) && Holds(s, who, r)
    ensures HoldsAlone(s, who, r) && r !in s.warm && r < |s.slots| && !s.slots[r].retired
  {
    assert Holding(who, r) in s.holders;
    forall c | Holds(s, c, r) ensures c == who { assert Holding(c, r) in s.holders; }
  }

  class WarmPool {
    /** Who runs the methods of this object. */
    const caller: Caller
    var state: Pool
    /** What other callers do before each step of this one. */
    var schedule: seq<seq<Step>>

    /** A slot that this caller holds. */
    ghost predicate Mine(me: Ref) reads this { Inv(state) && me < |state.slots| && Holds(state, caller, me) }

    constructor (caller: Caller, capacity: nat, egress: bool, schedule: seq<seq<Step>>)
      ensures Inv(state) && state == Empty(capacity, egress) && this.caller == caller
    {
      this.caller, state, this.schedule := caller, Empty(capacity, egress), schedule;
    }

    /** The other callers' turn: any steps of theirs that are possible, on any slots. None of them is
        on a slot this caller holds, because no two callers hold one slot. */
    method Others()
      requires Inv(state)
      modifies this
      ensures Inv(state) && Grown(old(state), state)
      ensures Undisturbed(old(state), state, caller)
    {
      assert Undisturbed(state, state, caller) by {
        forall r: Ref | Holds(state, caller, r) ensures Keeps(state, state, caller, r) { Alone(state, caller, r); }
      }
      if schedule == [] { return; }
      var steps := schedule[0];
      schedule := schedule[1..];
      for i := 0 to |steps|
        invariant Inv(state) && Grown(old(state), state)
        invariant Undisturbed(old(state), state, caller)
      {
        ghost var before := state;
        if CanStep(state, steps[i]) && steps[i].who != caller {
          Other(steps[i]);
          StayUndisturbed(old(state), before, state, caller);
        }
      }
    }

    /** One step of another caller. */
    method Other(e: Step)
      requires Inv(state) && CanStep(state, e) && e.who != caller
      modifies this`state
      ensures Inv(state) && Grown(old(state), state)
      ensures Undisturbed(old(state), state, caller)
    {
      StepKeepsInv(state, e);
      forall r: Ref | Holds(state, caller, r) ensures Keeps(state, After(state, e), caller, r) {
        OthersKeepHold(state, e, caller, r);
      }
      state := After(state, e);
    }

    /** One step on a slot of this caller. */
    method Do(e: Step)
      requires Simple(e) && e.who == caller && Mine(e.r) && May(HoldOf(state, e.r), e, state.egress)
      modifies this
      ensures Mine(e.r) && Grown(old(state), state)
      ensures HoldOf(state, e.r) == HoldAfter(old(HoldOf(state, e.r)), e)
    {
      Others();
      StepKeepsInv(state, e);
      OwnStep(state, e);
      state := After(state, e);
    }

    // -------------------------------------------------------------------------------------------
    // Shared structures
    // -------------------------------------------------------------------------------------------

    /** The allocator hands out the lowest free id of its range, and a Slot object is made for it. */
    method Acquire() returns (r: Option<Ref>)
      requires Inv(state)
      modifies this
      ensures Inv(state) && Grown(old(state), state)
      ensures r.Some? ==> old(|state.slots|) <= r.value < |state.slots| && Holds(state, caller, r.value)
                          && HoldOf(state, r.value)
                             == Hold(Slot(state.slots[r.value].id, None, Unwired, false, None, false), false)
                          && FIRST_ID <= state.slots[r.value].id < FIRST_ID + MAX_SLOTS
                          && forall id :: FIRST_ID <= id < state.slots[r.value].id ==> id in state.used
      ensures r.None? ==> forall id :: FIRST_ID <= id < FIRST_ID + MAX_SLOTS ==> id in state.used
    {
      Others();
      var id := FIRST_ID;
      while id < FIRST_ID + MAX_SLOTS && id in state.used
        invariant FIRST_ID <= id <= FIRST_ID + MAX_SLOTS
        invariant forall j :: FIRST_ID <= j < id ==> j in state.used
      {
        id := id + 1;
      }
      if id == FIRST_ID + MAX_SLOTS { return None; }
      r := Some(|state.slots|);
      StepKeepsInv(state, New(caller, id));
      state := After(state, New(caller, id));
    }

    /** CNI setup. The plugin refuses exactly an address that is still leased; `at` is the pool at that
        moment. */
    method TryWire(me: Ref, offer: Option<Ip>) returns (ok: bool, ghost at: Pool)
      requires Mine(me) && state.slots[me].cni.Unwired?
      modifies this
      ensures Mine(me) && Grown(old(state), state) && Grown(old(state), at) && Grown(at, state)
      ensures ok <==> offer.Some? && Unleased(at, offer.value)
      ensures HoldOf(state, me) == if ok then Hold(old(state.slots[me]).(cni := Up(offer.value)), false)
              else old(HoldOf(state, me))
    {
      Others();
      at := state;
      ok := offer.Some? && Unleased(state, offer.value);
      if ok {
        StepKeepsInv(state, Wire(caller, me, offer.value));
        state := After(state, Wire(caller, me, offer.value));
      }
    }

    /** The queue takes the slot exactly when it is open and has room; `at` is the pool at that moment. */
    method TryPush(me: Ref) returns (ok: bool, ghost at: Pool)
      requires Mine(me) && Clean(HoldOf(state, me)) && state.slots[me].cni.Up? && state.slots[me].netns
      modifies this
      ensures Inv(state) && Grown(old(state), state)
      ensures me < |state.slots| && HoldOf(state, me) == old(HoldOf(state, me))
      ensures if ok then me in state.warm && Unheld(state, me) else Mine(me)
      ensures Inv(at) && Grown(old(state), at) && Keeps(old(state), at, caller, me)
      ensures ok <==> !at.closed && |at.warm| < at.capacity
      ensures if ok then CanStep(at, Push(caller, me)) && state == After(at, Push(caller, me)) else state == at
    {
      Others();
      at := state;
      ok := !state.closed && |state.warm| < state.capacity;
      if ok {
        Alone(state, caller, me);
        StepKeepsInv(state, Push(caller, me));
        state := After(state, Push(caller, me));
      }
    }

    /** The oldest warm slot, if there is one in an open queue; `at` is the pool at that moment. It carries
        nothing of its last sandbox. */
    method TryPop() returns (r: Option<Ref>, ghost at: Pool)
      requires Inv(state)
      modifies this
      ensures Inv(state) && Grown(old(state), state)
      ensures r.Some? ==> r.value < |state.slots| && Clean(HoldOf(state, r.value)) && r.value !in state.warm
                          && HoldsAlone(state, caller, r.value) && state.slots[r.value].cni.Up?
                          && state.slots[r.value].netns
      ensures Grown(old(state), at) && r == if at.closed || at.warm == [] then None else Some(at.warm[0])
      ensures state.warm == if r.Some? then at.warm[1..] else at.warm
    {
      Others();
      at := state;
      r := None;
      if state.closed || |state.warm| == 0 { return; }
      r := Some(state.warm[0]);
      assert r.value in state.warm && Kept(state, state.slots[r.value], true);
      StepKeepsInv(state, Pop(caller, r.value));
      state := After(state, Pop(caller, r.value));
      Alone(state, caller, r.value);
    }

    // -------------------------------------------------------------------------------------------
    // Egress policy
    // -------------------------------------------------------------------------------------------

    /** The policy is stored before the slot becomes discoverable by address. A new policy for the
        same sandbox keeps the assignment id; otherwise the id was never used before. */
    method Apply(me: Ref, sandbox: Id, terms: EgressRules.Terms, notReady: bool) returns (ok: bool)
      requires Mine(me) && state.egress && state.slots[me].sandbox == Some(sandbox)
      modifies this
      ensures Mine(me) && Grown(old(state), state)
      ensures ok == (!notReady && old(state.slots[me]).cni.Up?)
      ensures !ok ==> HoldOf(state, me) == old(HoldOf(state, me))
      ensures ok ==> var p, was := state.slots[me].policy, old(state.slots[me]).policy;
                     && HoldOf(state, me) == Hold(old(state.slots[me]).(policy := p), true)
                     && p.Some? && p.value.sandbox == sandbox && p.value.terms == terms
                     && (was.Some? ==> p.value.assignment == was.value.assignment)
                     && (was.None? ==> p.value.assignment >= old(state.issued))
    {
      if notReady || !state.slots[me].cni.Up? { return false; }
      Others();
      assert Kept(state, state.slots[me], me in state.warm);
      StepKeepsInv(state, Store(caller, me, sandbox, terms));
      state := After(state, Store(caller, me, sandbox, terms));
      Do(Index(caller, me));
      ok := true;
    }

    /** The policy goes before the index entry, so a Check that still finds the slot sees no policy. */
    method Clear(me: Ref)
      requires Mine(me) && state.egress
      modifies this
      ensures Mine(me) && Grown(old(state), state)
      ensures HoldOf(state, me) == Hold(old(state.slots[me]).(policy := None), false)
    {
      Do(Erase(caller, me));
      Do(Unindex(caller, me));
    }

    // -------------------------------------------------------------------------------------------
    // Slots
    // -------------------------------------------------------------------------------------------

    /** The namespace goes only after CNI has let go of the address. */
    method TeardownSlotNetwork(me: Ref, f: TeardownFaults) returns (ok: bool)
      requires Mine(me) && state.slots[me].policy.None? && !Indexed(state, me)
      modifies this
      ensures Mine(me) && Grown(old(state), state)
      ensures var t := old(state.slots[me]);
              && ok == !(f.cni || f.ns || (f.tap && t.cni.Up? && t.netns))
              && HoldOf(state, me) == Hold(Remains(t, f), false)
    {
      ok := !f.cni && !f.ns && !(f.tap && state.slots[me].cni.Up? && state.slots[me].netns);
      Unplug(me, f.cni);
      if !f.cni && !f.ns { Do(DropNs(caller, me)); }
    }

    /** CNI lets go of the address, unless it fails, and the sandbox assignment goes in any case. */
    method Unplug(me: Ref, cniFails: bool)
      requires Mine(me) && state.slots[me].policy.None? && !Indexed(state, me)
      modifies this
      ensures Mine(me) && Grown(old(state), state)
      ensures var t := old(state.slots[me]);
              HoldOf(state, me) == Hold(t.(sandbox := None, cni := if cniFails then t.cni else Down), false)
    {
      if !cniFails { Do(Unwire(caller, me)); }
      Do(Unassign(caller, me));
    }

    /** The id goes back to the allocator exactly when the whole teardown succeeded. */
    method DestroyNetworkSlot(me: Ref, f: TeardownFaults) returns (ok: bool)
      requires Mine(me)
      modifies this
      ensures Inv(state) && Grown(old(state), state)
      ensures var t := old(state.slots[me]);
              && ok == !(f.cni || f.ns || (f.tap && t.cni.Up? && t.netns))
              && me < |state.slots| && HoldOf(state, me) == Hold(Remains(t, f).(policy := None, retired := ok), false)
      ensures if ok then Unheld(state, me) else Mine(me)
    {
      if state.egress {
        Clear(me);
      } else {
        assert Kept(state, state.slots[me], me in state.warm);
      }
      ok := TeardownSlotNetwork(me, f);
      if ok { Discharge(me); }
    }

    /** The id of a torn-down slot goes back to the allocator, and nobody has the slot any more. */
    method Discharge(me: Ref)
      requires Mine(me) && May(HoldOf(state, me), Retire(caller, me), state.egress)
      modifies this
      ensures Inv(state) && Grown(old(state), state) && me < |state.slots| && Unheld(state, me)
      ensures HoldOf(state, me) == Hold(old(state.slots[me]).(retired := true), false)
    {
      Others();
      Alone(state, caller, me);
      StepKeepsInv(state, Retire(caller, me));
      state := After(state, Retire(caller, me));
    }

    /** A slot is ready for the queue exactly when an id was free, nothing failed, and CNI offered an
        address that nobody had when it was asked (`wiring` is the pool at that moment). One that could not
        be finished is destroyed, and if that fails too it keeps its id, so the id is not handed out again. */
    method CreateNetworkSlot(f: CreateFaults) returns (r: Option<Ref>, made: Option<Ref>, ghost wiring: Pool)
      requires Inv(state)
      modifies this
      ensures Inv(state) && Grown(old(state), state)
      ensures made.Some? ==> old(|state.slots|) <= made.value < |state.slots| && Clean(HoldOf(state, made.value))
      ensures r.Some? ==> made == r && !f.cancelled && !f.late && f.ns.None? && !f.tap
                          && Holds(state, caller, r.value) && state.slots[r.value].netns
                          && state.slots[r.value].cni.Up? && f.ip == Some(state.slots[r.value].cni.ip)
      ensures made.Some? ==> !f.cancelled
      ensures r.Some? <==> made.Some? && !f.late && f.ns.None? && !f.tap && f.ip.Some? && Unleased(wiring, f.ip.value)
      ensures made.None? ==> f.cancelled || forall id :: FIRST_ID <= id < FIRST_ID + MAX_SLOTS ==> id in state.used
      ensures r.None? && made.Some? && !state.slots[made.value].retired
              ==> state.slots[made.value].id in state.used && (f.down.cni || f.down.ns || f.down.tap)
    {
      r, made, wiring := None, None, state;
      if f.cancelled { return; }
      made := Acquire();
      if made.None? { return; }
      var me, ok := made.value, false;
      if f.late {
        Discharge(me);
        return;
      }
      if f.ns.Some? {
        if f.ns.value { Do(MakeNs(caller, me)); }
        ok := DestroyNetworkSlot(me, f.down);
        assert Kept(state, state.slots[me], me in state.warm);
        return;
      }
      Do(MakeNs(caller, me));
      var wired, at := TryWire(me, f.ip);
      wiring := at;
      if !wired || f.tap {
        ok := DestroyNetworkSlot(me, f.down);
        assert Kept(state, state.slots[me], me in state.warm);
        return;
      }
      r := made;
    }

    /** A slot handed out is in nobody else's hands and carries exactly the asked policy under a new
        assignment. A slot that could not be given its policy is destroyed. */
    method Get(sandbox: Id, terms: EgressRules.Terms, f: GetFaults)
        returns (r: Option<Ref>, popped: Option<Ref>, ghost asked: Pool)
      requires Inv(state)
      modifies this
      ensures Inv(state) && Grown(old(state), state)
      ensures r.Some? <==>
              popped.Some? && !f.late && !f.rules && if state.egress then !f.notReady else terms.rules == []
      ensures Grown(old(state), asked)
      ensures popped == if f.invalid || sandbox == "" || f.cancelled || asked.closed || asked.warm == [] then None
                        else Some(asked.warm[0])
      ensures r.Some? ==> r == popped && sandbox != "" && r.value < |state.slots|
                          && HoldsAlone(state, caller, r.value) && r.value !in state.warm
                          && var t := state.slots[r.value]; t.sandbox == Some(sandbox) && t.cni.Up? && t.netns
      ensures r.Some? && state.egress
              ==> Indexed(state, r.value) && var p := state.slots[r.value].policy;
                                             && p.Some? && p.value.sandbox == sandbox && p.value.terms == terms
                                             && p.value.assignment >= old(state.issued)
      ensures r.Some? && !state.egress ==> state.slots[r.value].policy.None? && terms.rules == []
      ensures r.None? && popped.Some?
              ==> popped.value < |state.slots| && Clean(HoldOf(state, popped.value))
                  && (state.slots[popped.value].retired || f.down.cni || f.down.ns || f.down.tap)
    {
      r, popped, asked := None, None, state;
      if f.invalid || sandbox == "" || f.cancelled { return; }
      popped, asked := TryPop();
      if popped.None? { return; }
      var me, ok := popped.value, false;
      Do(Assign(caller, me, sandbox));
      if !f.late && !f.rules { ok := ApplyEgressSecurity(me, sandbox, terms, f.notReady); }
      if !ok {
        var _ := DestroyNetworkSlot(me, f.down);
        return;
      }
      Alone(state, caller, me);
      assert Kept(state, state.slots[me], me in state.warm);
      r := popped;
    }

    /** Without an egress controller, only a policy without request rules can be applied. */
    method ApplyEgressSecurity(me: Ref, sandbox: Id, terms: EgressRules.Terms, notReady: bool) returns (ok: bool)
      requires Mine(me) && state.slots[me].sandbox == Some(sandbox)
      modifies this
      ensures Mine(me) && Grown(old(state), state)
      ensures ok == if state.egress then !notReady && old(state.slots[me]).cni.Up? else terms.rules == []
      ensures !ok || !state.egress ==> HoldOf(state, me) == old(HoldOf(state, me))
      ensures ok && state.egress
              ==> var p, was := state.slots[me].policy, old(state.slots[me]).policy;
                  && HoldOf(state, me) == Hold(old(state.slots[me]).(policy := p), true)
                  && p.Some? && p.value.sandbox == sandbox && p.value.terms == terms
                  && (was.Some? ==> p.value.assignment == was.value.assignment)
                  && (was.None? ==> p.value.assignment >= old(state.issued))
    {
      if !state.egress { return |terms.rules| == 0; }
      ok := Apply(me, sandbox, terms, notReady);
    }

    /** Only the sandbox a slot is assigned to can change its policy, and its assignment id stays. */
    method SetSandboxNetworkPolicy(me: Ref, sandbox: Id, terms: EgressRules.Terms, invalid: bool, rules: bool,
        notReady: bool) returns (ok: bool)
      requires Mine(me)
      modifies this
      ensures Mine(me) && Grown(old(state), state)
      ensures ok <==> sandbox != "" && old(state.slots[me]).sandbox == Some(sandbox) && !invalid && !rules
                      && if state.egress then !notReady && old(state.slots[me]).cni.Up? else terms.rules == []
      ensures !ok || !state.egress ==> HoldOf(state, me) == old(HoldOf(state, me))
      ensures ok && state.egress
              ==> var p, was := state.slots[me].policy, old(state.slots[me]).policy;
                  && p.Some? && p.value.sandbox == sandbox && p.value.terms == terms && Indexed(state, me)
                  && (was.Some? ==> p.value.assignment == was.value.assignment)
    {
      if sandbox == "" || state.slots[me].sandbox != Some(sandbox) || invalid || rules { return false; }
      ok := ApplyEgressSecurity(me, sandbox, terms, notReady);
    }

    /** After an accepted release nothing of the sandbox is left on the slot, whatever fails. The
        slot is queued exactly when it is healthy, all its rules are gone and the queue was open with
        room when it was offered (`offered` is the pool at that moment); else it is retired, or, on an error
        only, still the caller's. */
    method Release(me: Ref, f: ReleaseFaults) returns (r: Released, ghost offered: Pool)
      requires Mine(me)
      modifies this
      ensures Inv(state) && Grown(old(state), state) && me < |state.slots|
      ensures if r.Pooled? || r.Dropped? then Unheld(state, me) else Mine(me)
      ensures r.Refused? <==> f.cancelled
      ensures r.Refused? ==> HoldOf(state, me) == old(HoldOf(state, me))
      ensures !r.Refused? ==> Clean(HoldOf(state, me))
      ensures (r.Pooled? <==> me in state.warm) && (r.Dropped? <==> state.slots[me].retired)
      ensures Grown(old(state), offered)
      ensures var t := old(state.slots[me]);
              r.Pooled? <==> !f.cancelled && !f.rules && !f.conntrack && !f.unhealthy && t.netns && t.cni.Up?
                             && !offered.closed && |offered.warm| < offered.capacity
      ensures r.Pooled? ==> state.warm == offered.warm + [me]
      ensures r.Pooled? ==> state.slots[me] == old(state.slots[me]).(sandbox := None, policy := None)
      ensures r.Stuck? ==> f.down.cni || f.down.ns || f.down.tap
    {
      Alone(state, caller, me);
      offered := state;
      r := Refused;
      if f.cancelled { return; }
      if state.egress { Clear(me); } else { assert Kept(state, state.slots[me], me in state.warm); }
      var gone := false;
      if f.rules || f.conntrack {
        gone := DestroyNetworkSlot(me, f.down);
        r := if gone then Dropped else Stuck;
        return;
      }
      Do(Unassign(caller, me));
      if !f.unhealthy && state.slots[me].netns && state.slots[me].cni.Up? {
        var pushed, at := TryPush(me);
        offered := at;
        r := Pooled;
        if pushed { return; }
      }
      gone := DestroyNetworkSlot(me, f.down);
      r := if gone then Dropped else Stuck;
    }
  }
}
