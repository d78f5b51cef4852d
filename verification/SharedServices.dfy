/** The services operations on different sandboxes share, one lock or atomic counter each. Their
    contracts are the global guards of the node's atomic actions. */
module SharedServices {
  import opened Domain
  import opened World

  /** The capacity ledger (internal/conchruntime/capacity.go). */
  class Capacity {
    const limits: Limits
    var used: Alloc
    var reservations: map<Id, Alloc>

    ghost predicate Valid() reads this { LedgerInv(limits, reservations, used) }

    constructor (limits: Limits)
      ensures Valid() && this.limits == limits && reservations == map[]
    {
      this.limits, used, reservations := limits, Alloc(0, 0), map[];
    }

    /** Admits a reservation exactly when the id holds none, the request is positive and everything
        still fits; the totals stay the exact sums of what is reserved. */
    method Reserve(id: Id, cpus: int, memoryMB: int) returns (r: Outcome)
      requires Valid()
      modifies this
      ensures Valid()
      ensures r == if id in old(reservations) then Err(AlreadyExists)
                   else if cpus > 0 && memoryMB > 0
                       && (limits.maxSandboxes > 0 ==> |old(reservations)| < limits.maxSandboxes)
                        && Sum(old(reservations), Cpus) + cpus <= limits.maxCpus
                        && Sum(old(reservations), MemoryMB) + memoryMB <= limits.maxMemoryMB then Ok
                   else Err(ResourceExhausted)
      ensures reservations == if r.Ok? then old(reservations)[id := Alloc(cpus, memoryMB)] else old(reservations)
    {
      if id in reservations { return Err(AlreadyExists); }
      if cpus <= 0 || memoryMB <= 0 || (limits.maxSandboxes > 0 && |reservations| >= limits.maxSandboxes)
        || cpus > limits.maxCpus - used.cpus || memoryMB > limits.maxMemoryMB - used.memoryMB {
        return Err(ResourceExhausted);
      }
      KeepsLedger(limits, reservations, used, id, Some(Alloc(cpus, memoryMB)));
      reservations := reservations[id := Alloc(cpus, memoryMB)];
      used := Alloc(used.cpus + cpus, used.memoryMB + memoryMB);
      r := Ok;
    }

    /** Releasing twice, or an id that holds nothing, changes nothing. */
    method Release(id: Id)
      requires Valid()
      modifies this
      ensures Valid() && reservations == old(reservations) - {id}
    {
      KeepsLedger(limits, reservations, used, id, None);
      if id in reservations {
        var reserved := reservations[id];
        used := Alloc(used.cpus - reserved.cpus, used.memoryMB - reserved.memoryMB);
        reservations := reservations - {id};
      } else {
        assert reservations - {id} == reservations;
      }
    }
  }

  /** The context-id allocator (internal/sandbox/cid_allocator.go). */
  class CidAllocator {
    var nextCid: nat
    var cidBySandbox: map<Id, nat>

    ghost predicate Valid() reads this { CidInv(cidBySandbox, nextCid) }

    constructor ()
      ensures Valid() && cidBySandbox == map[]
    {
      nextCid, cidBySandbox := MIN_CID, map[];
    }

    /** Ids are handed out once: a new one is larger than all before it, the counter never passes
        the 32-bit range, and an id that already has one keeps it. */
    method Allocate(id: Id) returns (cid: Option<nat>)
      requires Valid()
      modifies this
      ensures Valid() && nextCid >= old(nextCid) && nextCid < 0x1_0000_0000
      ensures cid == if id in old(cidBySandbox) then Some(old(cidBySandbox)[id])
                     else if old(nextCid) <= MAX_CID then Some(old(nextCid)) else None
      ensures cidBySandbox == if cid.Some? then old(cidBySandbox)[id := cid.value] else old(cidBySandbox)
      ensures cid.Some? ==> MIN_CID <= cid.value < nextCid
      ensures cid.Some? ==> forall j :: j in cidBySandbox && j != id ==> cidBySandbox[j] != cid.value
    {
      if id in cidBySandbox { return Some(cidBySandbox[id]); }
      if nextCid > MAX_CID { return None; }
      cid := Some(nextCid);
      cidBySandbox := cidBySandbox[id := nextCid];
      nextCid := nextCid + 1;
    }

    method Release(id: Id)
      requires Valid()
      modifies this
      ensures Valid() && cidBySandbox == old(cidBySandbox) - {id} && nextCid == old(nextCid)
    {
      cidBySandbox := cidBySandbox - {id};
    }
  }
}

/** RAM admission (reserveRAM, releaseRAM): a compare-and-swap loop on one counter, run by any number
    of operations at once. */
module RamAdmission {
  import opened Domain

  /** Where an operation stands: not in the loop, with a loaded value, or holding a reservation. */
  datatype Pc = Idle | Loaded(asked: nat, seen: int) | Holding(mb: nat)

  datatype Machine = Machine(used: int, limit: real, pcs: map<Id, Pc>)

  datatype Step =
    | Load(t: Id, asked: nat)   // the first load, or the reload after a failed swap
    | Reject(t: Id)
    | Swap(t: Id)
    | Return(t: Id)

  predicate Fits(m: Machine, base: int, asked: nat) { (base + asked) as real <= m.limit }

  predicate CanStep(m: Machine, s: Step) {
    s.t in m.pcs &&
    match s
    case Load(t, asked) => m.pcs[t].Idle? || (m.pcs[t].Loaded? && m.pcs[t].asked == asked && m.pcs[t].seen != m.used)
    case Reject(t) => m.pcs[t].Loaded? && !Fits(m, m.pcs[t].seen, m.pcs[t].asked)
    case Swap(t) => m.pcs[t].Loaded? && Fits(m, m.pcs[t].seen, m.pcs[t].asked) && m.used == m.pcs[t].seen
    case Return(t) => m.pcs[t].Holding?
  }

  function After(m: Machine, s: Step): Machine
    requires CanStep(m, s)
  {
    match s
    case Load(t, asked) => m.(pcs := m.pcs[t := Loaded(asked, m.used)])
    case Reject(t) => m.(pcs := m.pcs[t := Idle])
    case Swap(t) => m.(used := m.used + m.pcs[t].asked, pcs := m.pcs[t := Holding(m.pcs[t].asked)])
    case Return(t) => m.(used := m.used - m.pcs[t].mb, pcs := m.pcs[t := Idle])
  }

  function Held(pc: Pc): int { if pc.Holding? then pc.mb else 0 }

  /** The counter is exactly what is held, and never over the limit. */
  ghost predicate Inv(m: Machine) {
    m.used == Sum(m.pcs, Held) && (m.used > 0 ==> m.used as real <= m.limit)
  }

  ghost function Exec(m: Machine, steps: seq<Step>): Option<Machine>
    decreases |steps|
  {
    if steps == [] then Some(m)
    else if CanStep(m, steps[0]) then Exec(After(m, steps[0]), steps[1..]) else None
  }

  lemma StepKeepsInv(m: Machine, s: Step)
    requires Inv(m) && CanStep(m, s)
    ensures Inv(After(m, s))
  {
    SumSet(m.pcs, Held, s.t, Some(After(m, s).pcs[s.t]));
    SumNonNegative(m.pcs, Held);
  }

  /** In every interleaving of loads, swaps, rejections and returns the counter equals the sum of the
      reservations held and stays within the limit. */
  lemma {:induction false} InterleavingsKeepInv(m: Machine, steps: seq<Step>)
    requires Inv(m) && Exec(m, steps).Some?
    ensures Inv(Exec(m, steps).value)
    decreases |steps|
  {
    if steps != [] {
      StepKeepsInv(m, steps[0]);
      InterleavingsKeepInv(After(m, steps[0]), steps[1..]);
    }
  }

  /** The loop refines an atomic guarded addition: a step either leaves the counter alone, or adds a
      request that fits at that very instant, or takes back exactly what its owner held. */
  lemma SwapIsGuardedAdd(m: Machine, s: Step)
    requires Inv(m) && CanStep(m, s)
    ensures var z := After(m, s);
            || (z.used == m.used && Held(z.pcs[s.t]) == Held(m.pcs[s.t]) && !s.Swap? && !s.Return?)
            || (s.Swap? && z.used == m.used + Held(z.pcs[s.t]) && Fits(m, m.used, Held(z.pcs[s.t]))
               && Held(m.pcs[s.t]) == 0)
            || (s.Return? && z.used == m.used - Held(m.pcs[s.t]) && Held(z.pcs[s.t]) == 0)
  {
  }
}
