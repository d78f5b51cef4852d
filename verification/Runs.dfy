/** Whole runs of the node: any interleaving of the atomic actions of operations on different
    sandboxes with VMM exits, proxied requests and registry shutdown. */
module Runs {
  import opened Domain
  import opened RouteRegistry
  import opened World

  datatype Step =
    | Do(id: Id, action: Action)     // an action of the operation holding the lock of `id`
    | VmmExit(vmm: nat)              // a VMM process dies on its own
    | Attach(id: Id)                 // the proxy copies a published route for a request
    | Detach(request: Request)       // a request ends
    | CloseRegistry

  ghost predicate CanStep(w: World, s: Step) {
    match s
    case Do(id, a) => Enabled(w, id, a)
    case Attach(id) => id in w.routes.slots && w.routes.slots[id].ip != ""
    case _ => true
  }

  ghost function After(w: World, s: Step): World
    requires CanStep(w, s)
  {
    match s
    case Do(id, a) => Apply(w, id, a)
    case VmmExit(m) => w.(live := w.live - {m})
    case Attach(id) => w.(requests := w.requests + {Request(w.routes.slots[id].ip, w.routes.slots[id].lifetime)})
    case Detach(r) => w.(requests := w.requests - {r})
    case CloseRegistry => w.(routes := Next(w.routes, Event.Close))
  }

  /** The world after a run, or nothing if some step was not possible. */
  ghost function Exec(w: World, steps: seq<Step>): Option<World>
    decreases |steps|
  {
    if steps == [] then Some(w) else
      var before := Exec(w, steps[..|steps| - 1]);
      var s := steps[|steps| - 1];
      if before.Some? && CanStep(before.value, s) then Some(After(before.value, s)) else None
  }

  lemma CloseKeepsInv(w: World)
    requires Inv(w)
    ensures Inv(After(w, CloseRegistry)) && Extends(w.routes, After(w, CloseRegistry).routes)
  {
    NextSound(w.routes, Event.Close);
    assert w.routes.closed || Next(w.routes, Event.Close).slots == map[];
  }

  lemma AttachKeepsInv(w: World, id: Id)
    requires Inv(w) && CanStep(w, Attach(id))
    ensures Inv(After(w, Attach(id)))
  {
    assert SlotSound(w.routes, w.routes.slots[id]);
  }

  lemma StepKeepsInv(w: World, s: Step)
    requires Inv(w) && CanStep(w, s)
    ensures Inv(After(w, s)) && Extends(w.routes, After(w, s).routes)
  {
    match s
    case Do(id, a) => ActionKeepsInv(w, id, a);
    case VmmExit(m) =>
    case Attach(id) => AttachKeepsInv(w, id);
    case Detach(r) =>
    case CloseRegistry => CloseKeepsInv(w);
  }

  /** In every state of every run, under any failures and any interleaving, the invariant holds:
      ledgers are exact and within limits, published routes point at held slots, live VMMs are
      held by the current entries. */
  lemma {:induction false} RunKeepsInv(w: World, steps: seq<Step>, k: nat)
    requires Inv(w) && Exec(w, steps).Some? && k <= |steps|
    ensures Exec(w, steps[..k]).Some? && Inv(Exec(w, steps[..k]).value)
    ensures Extends(w.routes, Exec(w, steps[..k]).value.routes)
    decreases |steps|
  {
    if steps == [] {
      assert steps[..k] == [];
    } else {
      var n := |steps| - 1;
      var init := steps[..n];
      if k <= n {
        assert steps[..k] == init[..k];
        RunKeepsInv(w, init, k);
      } else {
        assert steps[..k] == steps;
        assert init[..n] == init;
        RunKeepsInv(w, init, n);
        StepKeepsInv(Exec(w, init).value, steps[n]);
      }
    }
  }

  // ---------------------------------------------------------------------------------------------
  // What the invariant means
  // ---------------------------------------------------------------------------------------------

  /** No two sandboxes publish one address. */
  lemma PublishedIpsDistinct(w: World, i: Id, j: Id)
    requires Inv(w) && i in w.routes.slots && j in w.routes.slots
    requires w.routes.slots[i].ip != "" && w.routes.slots[i].ip == w.routes.slots[j].ip
    ensures i == j
  {
  }

  /** A request whose lifetime is not cancelled targets the address of a slot that some entry still
      holds; equivalently, once an address went back to the pool every request for it is cancelled. */
  lemma LiveRequestsHitHeldSlots(w: World, r: Request)
    requires Inv(w) && r in w.requests
    ensures r.lifetime !in w.routes.cancelled ==>
              exists id :: id in w.entries && w.entries[id].slot == Some(r.ip) && Owns(w.routes, id, r.lifetime)
  {
    if r.lifetime !in w.routes.cancelled {
      var id :| Owns(w.routes, id, r.lifetime);
      assert SlotSound(w.routes, w.routes.slots[id]);
      assert w.routes.slots[id].ip == r.ip;
    }
  }

  /** At most one live VMM per sandbox, and no two live VMMs share a context id. */
  lemma LiveVmmsDistinct(w: World, m: nat, n: nat)
    requires Inv(w) && m in w.live && n in w.live
    requires w.live[m].owner == w.live[n].owner || w.live[m].cid == w.live[n].cid
    ensures m == n
  {
    assert Runs(w.entries[w.live[m].owner], m) && Runs(w.entries[w.live[n].owner], n);
  }

  ghost function LiveMemory(live: map<nat, Vmm>): int {
    if live == map[] then 0 else
      var m :| m in live;
      live[m].mem + LiveMemory(live - {m})
  }

  lemma {:induction false} LiveMemoryBooked(live: map<nat, Vmm>, entries: map<Id, Entry>)
    requires forall m :: m in live ==> live[m].owner in entries && live[m].mem == entries[live[m].owner].ram
    requires forall m, n :: m in live && n in live && live[m].owner == live[n].owner ==> m == n
    ensures LiveMemory(live) <= Sum(entries, EntryRam)
    decreases live
  {
    if live == map[] {
      SumNonNegative(entries, EntryRam);
    } else {
      var m :| m in live && LiveMemory(live) == live[m].mem + LiveMemory(live - {m});
      LiveMemoryBooked(live - {m}, entries - {live[m].owner});
      SumPick(entries, EntryRam, live[m].owner);
    }
  }

  /** On a node with memory admission, the memory of all VMMs that run on it never exceeds the
      admission limit. */
  lemma RunningMemoryWithinLimit(w: World)
    requires Inv(w) && w.limits.metered
    ensures LiveMemory(w.live) <= w.usedRAM
    ensures LiveMemory(w.live) > 0 ==> LiveMemory(w.live) as real <= w.limits.ramLimit
  {
    forall m, n | m in w.live && n in w.live && w.live[m].owner == w.live[n].owner ensures m == n {
      LiveVmmsDistinct(w, m, n);
    }
    LiveMemoryBooked(w.live, w.entries);
    SumNonNegative(w.pending, PendingRam);
  }

  // ---------------------------------------------------------------------------------------------
  // Isolation: what the lock of one sandbox buys
  // ---------------------------------------------------------------------------------------------

  /** The actions taken under the lock of `id`, in order. */
  function Own(steps: seq<Step>, id: Id): Trail
    decreases |steps|
  {
    if steps == [] then Nil else
      var before := Own(steps[..|steps| - 1], id);
      var s := steps[|steps| - 1];
      if s.Do? && s.id == id then Snoc(before, s.action) else before
  }

  /** The shared services keep their contracts along a run: the ledger admits only what fits, the
      pool hands out unheld addresses, lifetimes, context ids and process handles are new, and a
      closed registry takes no slot and no publication. */
  ghost predicate ServicesKeepContracts(w: World, steps: seq<Step>) {
    forall k :: 0 <= k < |steps| ==> ContractKept(w, steps[..k], steps[k])
  }

  ghost predicate ContractKept(w: World, before: seq<Step>, s: Step) {
    Exec(w, before).Some? ==>
      match s
      case Do(id, a) => GlobalOk(Exec(w, before).value, a)
      case _ => CanStep(Exec(w, before).value, s)
  }

  /** What each sandbox does under its own lock replays on its own view. */
  ghost predicate EachReplays(w: World, steps: seq<Step>) {
    forall id :: LocalExec(ViewOf(w, id), Own(steps, id)).Some?
  }

  /** A sandbox's view is the replay of the actions taken under its own lock, less its route slot once
      the registry is closed. */
  ghost predicate IsReplay(w: World, z: World, steps: seq<Step>, id: Id) {
    var alone := LocalExec(ViewOf(w, id), Own(steps, id));
    alone.Some? && ViewOf(z, id) == Cut(alone.value, z.routes.closed)
  }

  lemma ReplaysInit(w: World, steps: seq<Step>)
    requires steps != [] && EachReplays(w, steps)
    ensures EachReplays(w, steps[..|steps| - 1])
  {
    forall id ensures LocalExec(ViewOf(w, id), Own(steps[..|steps| - 1], id)).Some? {
      assert LocalExec(ViewOf(w, id), Own(steps, id)).Some?;
    }
  }

  lemma ContractsInit(w: World, steps: seq<Step>, n: nat)
    requires ServicesKeepContracts(w, steps) && n <= |steps|
    ensures ServicesKeepContracts(w, steps[..n])
  {
    var init := steps[..n];
    forall k | 0 <= k < n ensures ContractKept(w, init[..k], init[k]) {
      assert init[..k] == steps[..k];
      assert ContractKept(w, steps[..k], steps[k]);
    }
  }

  /** An action that replays on the view of its own sandbox is allowed when its turn comes, even if
      the registry has closed meanwhile. */
  lemma OwnActionAllowed(w: World, z: World, init: seq<Step>, id: Id, a: Action)
    requires IsReplay(w, z, init, id) && GlobalOk(z, a) && LocalExec(ViewOf(w, id), Snoc(Own(init, id), a)).Some?
    ensures Enabled(z, id, a)
    ensures var alone := LocalExec(ViewOf(w, id), Snoc(Own(init, id), a)).value;
            ApplyLocal(ViewOf(z, id), a) == Cut(alone, z.routes.closed)
  {
    if z.routes.closed { CutOk(LocalExec(ViewOf(w, id), Own(init, id)).value, a); }
  }

  lemma ActionKeepsClosed(z: World, id: Id, a: Action)
    requires Enabled(z, id, a)
    ensures Apply(z, id, a).routes.closed == z.routes.closed
  {
  }

  /** It keeps every view a replay. */
  lemma OwnActionReplays(w: World, z: World, init: seq<Step>, id: Id, a: Action, j: Id)
    requires IsReplay(w, z, init, id) && IsReplay(w, z, init, j) && GlobalOk(z, a)
    requires LocalExec(ViewOf(w, id), Snoc(Own(init, id), a)).Some?
    ensures Enabled(z, id, a) && IsReplay(w, Apply(z, id, a), init + [Do(id, a)], j)
  {
    OwnActionAllowed(w, z, init, id, a);
    ActionKeepsClosed(z, id, a);
    ActionIsLocal(z, id, a, j);
    assert (init + [Do(id, a)])[..|init|] == init;
  }

  /** A step of nobody's lock keeps every view a replay. */
  lemma OtherStepReplays(w: World, z: World, init: seq<Step>, s: Step, id: Id)
    requires IsReplay(w, z, init, id) && Sound(z.routes) && !s.Do? && CanStep(z, s)
    ensures IsReplay(w, After(z, s), init + [s], id)
  {
    assert (init + [s])[..|init|] == init;
  }

  lemma StepKeepsSound(z: World, s: Step)
    requires Sound(z.routes) && CanStep(z, s)
    ensures Sound(After(z, s).routes)
  {
    if s.CloseRegistry? {
      NextSound(z.routes, Event.Close);
    } else if s.Do? && RouteEvent(s.id, s.action).Some? {
      NextSound(z.routes, RouteEvent(s.id, s.action).value);
    }
  }

  lemma NothingReplays(w: World, id: Id)
    requires Sound(w.routes)
    ensures IsReplay(w, w, [], id)
  {
  }

  /** Every view is a replay, and the registry is sound. */
  ghost predicate AllReplay(w: World, z: World, steps: seq<Step>) {
    Sound(z.routes) && forall id :: IsReplay(w, z, steps, id)
  }

  /** One more step of an interleaving. */
  lemma InterleaveOne(w: World, z: World, init: seq<Step>, s: Step)
    requires AllReplay(w, z, init) && EachReplays(w, init + [s])
    requires if s.Do? then GlobalOk(z, s.action) else CanStep(z, s)
    ensures CanStep(z, s) && AllReplay(w, After(z, s), init + [s])
  {
    if s.Do? {
      var steps := init + [s];
      assert steps[..|init|] == init;
      assert Own(steps, s.id) == Snoc(Own(init, s.id), s.action);
      assert LocalExec(ViewOf(w, s.id), Own(steps, s.id)).Some?;
      OwnActionReplays(w, z, init, s.id, s.action, s.id);
      forall id ensures IsReplay(w, After(z, s), init + [s], id) { OwnActionReplays(w, z, init, s.id, s.action, id); }
    } else {
      forall id ensures IsReplay(w, After(z, s), init + [s], id) { OtherStepReplays(w, z, init, s, id); }
    }
    StepKeepsSound(z, s);
  }

  /** Operations need nothing beyond their own lock: if for every sandbox the actions taken under its
      lock replay on its own view, and the shared services keep their contracts, then every
      interleaving of them is a run, and each sandbox ends up as if its operations had run alone. The
      registry may close at any moment, whatever is in flight. */
  lemma {:induction false} LockedOperationsInterleave(w: World, steps: seq<Step>)
    requires Sound(w.routes) && ServicesKeepContracts(w, steps) && EachReplays(w, steps)
    ensures Exec(w, steps).Some? && AllReplay(w, Exec(w, steps).value, steps)
    decreases |steps|
  {
    if steps == [] {
      forall id ensures IsReplay(w, w, steps, id) { NothingReplays(w, id); }
    } else {
      var n := |steps| - 1;
      var init, s := steps[..n], steps[n];
      ReplaysInit(w, steps);
      ContractsInit(w, steps, n);
      LockedOperationsInterleave(w, init);
      assert ContractKept(w, init, s) && steps == init + [s];
      InterleaveOne(w, Exec(w, init).value, init, s);
    }
  }

  /** So the invariant of every instant holds along every interleaving of locked operations. */
  lemma InterleavingsKeepInv(w: World, steps: seq<Step>, k: nat)
    requires Inv(w) && ServicesKeepContracts(w, steps) && EachReplays(w, steps) && k <= |steps|
    ensures Exec(w, steps[..k]).Some? && Inv(Exec(w, steps[..k]).value)
  {
    LockedOperationsInterleave(w, steps);
    RunKeepsInv(w, steps, k);
  }

  /** What becomes of one sandbox's view if all that happens to it is its own actions and the closing
      of the registry. */
  ghost function Alone(v: View, steps: seq<Step>, id: Id): Option<View>
    decreases |steps|
  {
    if steps == [] then Some(v) else
      var u := Alone(v, steps[..|steps| - 1], id);
      var s := steps[|steps| - 1];
      if u.None? then None
      else if s.CloseRegistry? then Some(Cut(u.value, true))
      else if !s.Do? || s.id != id then u
      else if LocalOk(u.value, s.action) then Some(ApplyLocal(u.value, s.action)) else None
  }

  lemma StepIsLocal(z: World, s: Step, id: Id)
    requires Sound(z.routes) && CanStep(z, s)
    ensures ViewOf(After(z, s), id)
         == if s.CloseRegistry? then Cut(ViewOf(z, id), true)
            else if s.Do? && s.id == id then ApplyLocal(ViewOf(z, id), s.action) else ViewOf(z, id)
  {
    if s.Do? { ActionIsLocal(z, s.id, s.action, id); }
  }

  /** In any run at all, whatever others do, the view of a sandbox is what its own actions and the
      closing of the registry make of it. */
  lemma {:induction false} Isolation(w: World, steps: seq<Step>, id: Id)
    requires Sound(w.routes) && Exec(w, steps).Some?
    ensures Alone(ViewOf(w, id), steps, id) == Some(ViewOf(Exec(w, steps).value, id))
    ensures Sound(Exec(w, steps).value.routes)
    decreases |steps|
  {
    if steps != [] {
      var init := steps[..|steps| - 1];
      Isolation(w, init, id);
      StepIsLocal(Exec(w, init).value, steps[|steps| - 1], id);
      StepKeepsSound(Exec(w, init).value, steps[|steps| - 1]);
    }
  }
}
