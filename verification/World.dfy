/** The node's shared state and the atomic steps lifecycle operations are made of.

    Every operation of the sandbox manager runs under the lock of one sandbox id. What that lock
    protects is the id's `View`; the rest of the world (ledger totals, the RAM counter, the route
    registry, the table of live VMMs) is shared with operations on other ids that run meanwhile. */
module World {
  import opened Domain
  import opened RouteRegistry

  /** Node limits. `metered` is false when no memory overcommit ratio is configured; `ramLimit`
      is the memory limit times that ratio. */
  datatype Limits = Limits(maxSandboxes: int, maxCpus: int, maxMemoryMB: int, metered: bool, ramLimit: real)

  /** A VMM process that is running on the host. */
  datatype Vmm = Vmm(owner: Id, cid: nat, mem: nat)

  /** A proxied request: the (address, lifetime) pair it copied from the registry. */
  datatype Request = Request(ip: Ip, lifetime: nat)

  datatype World = World(
    limits: Limits,
    store: map<Id, Record>,
    entries: map<Id, Entry>,
    reservations: map<Id, Alloc>,
    used: Alloc,
    usedRAM: int,
    pending: map<Id, nat>,       // RAM taken from or due back to the counter, not on an entry
    routes: Table,
    requests: set<Request>,
    cids: map<Id, nat>,
    nextCid: nat,
    leases: set<Id>,
    live: map<nat, Vmm>,
    nextVmm: nat,
    nextGen: nat)

  const MIN_CID := 3
  const MAX_CID := 0xFFFF_FFFE

  /** Everything the lifecycle lock of one sandbox protects. */
  datatype View = View(
    rec: Option<Record>,
    entry: Option<Entry>,
    resv: Option<Alloc>,
    route: Option<RouteSlot>,
    cid: Option<nat>,
    pending: nat,
    lease: bool)

  function ViewOf(w: World, id: Id): View {
    View(Lookup(w.store, id), Lookup(w.entries, id), Lookup(w.reservations, id), Lookup(w.routes.slots, id),
         Lookup(w.cids, id), if id in w.pending then w.pending[id] else 0, id in w.leases)
  }

  datatype Action =
    | PutRecord(rec: Record) | DropRecord
    | PutEntry(gen: nat) | SetState(state: State) | SetVolumes | DropEntry
    | Reserve(alloc: Alloc) | Unreserve
    | InsertRoute(lifetime: nat) | PublishRoute(ip: Ip) | WithdrawRoute(lifetime: nat) | ReleaseRoute
    | TakeCid(cid: nat) | FreeCid
    | TakeRam(mb: nat) | BookRam | UnbookRam | ReturnRam
    | TakeSlot(ip: Ip) | LoseSlotIp | GiveSlot
    | Launch(vmm: nat, started: bool, mem: nat, metered: bool) | MarkExited | DropProcess | SetFreeze(freeze: Freeze)
    | SetLease(held: bool)

  predicate Hidden(v: View) { v.route.None? || v.route.value.ip == "" }

  /** No process of this entry can be running. */
  predicate Quiet(v: View) {
    v.entry.None? || v.entry.value.process.None? || v.entry.value.process.value.exited
  }

  /** What an action needs of the part of the state its lock protects. */
  predicate LocalOk(v: View, a: Action) {
    match a
    case PutRecord(_) => true
    case DropRecord => v.rec.Some?
    case PutEntry(_) => v.entry.None?
    case SetState(_) => v.entry.Some?
    case SetVolumes => v.entry.Some?
    case DropEntry => v.entry.Some? && v.entry.value.process.None? && v.entry.value.slot.None? && v.entry.value.ram == 0
    case Reserve(x) => v.resv.None? && x.cpus > 0 && x.memoryMB > 0
    case Unreserve => v.resv.Some?
    case InsertRoute(_) => true
    case PublishRoute(ip) =>
      && ip != "" && v.route.Some? && (v.route.value.ip == "" || v.route.value.ip == ip)
      && v.entry.Some? && v.entry.value.slot == Some(ip)
    case WithdrawRoute(_) => true
    case ReleaseRoute => true
    case TakeCid(_) => v.cid.None?
    case FreeCid => v.cid.Some? && Quiet(v)
    case TakeRam(_) => v.pending == 0
    case BookRam => v.entry.Some? && v.entry.value.ram == 0 && v.entry.value.process.None?
    case UnbookRam => v.entry.Some? && v.pending == 0 && Quiet(v)
    case ReturnRam => true
    case TakeSlot(ip) => v.entry.Some? && v.entry.value.slot.None? && ip != ""
    case LoseSlotIp => v.entry.Some? && v.entry.value.slot.Some? && Hidden(v)
    case GiveSlot => v.entry.Some? && v.entry.value.slot.Some? && Hidden(v)
    case Launch(_, _, mem, metered) =>
      && v.entry.Some? && v.entry.value.process.None? && v.entry.value.slot.Some? && v.cid.Some?
      && (metered ==> v.entry.value.ram == mem)
    case MarkExited => v.entry.Some? && v.entry.value.process.Some?
    case DropProcess => v.entry.Some? && v.entry.value.process.Some? && v.entry.value.process.value.exited
    case SetFreeze(_) => v.entry.Some? && v.entry.value.process.Some?
    case SetLease(_) => true
  }

  /** What an action does to that part. */
  function ApplyLocal(v: View, a: Action): View
    requires LocalOk(v, a)
  {
    match a
    case PutRecord(r) => v.(rec := Some(r))
    case DropRecord => v.(rec := None)
    case PutEntry(g) => v.(entry := Some(Entry(Creating, g, None, None, 0, false)))
    case SetState(s) => v.(entry := Some(v.entry.value.(state := s)))
    case SetVolumes => v.(entry := Some(v.entry.value.(volumes := true)))
    case DropEntry => v.(entry := None)
    case Reserve(x) => v.(resv := Some(x))
    case Unreserve => v.(resv := None)
    case InsertRoute(l) => v.(route := Some(RouteSlot("", l)))
    case PublishRoute(ip) => v.(route := Some(v.route.value.(ip := ip)))
    case WithdrawRoute(l) => if Hidden(v) then v else v.(route := Some(RouteSlot("", l)))
    case ReleaseRoute => v.(route := None)
    case TakeCid(c) => v.(cid := Some(c))
    case FreeCid => v.(cid := None)
    case TakeRam(mb) => v.(pending := mb)
    case BookRam => v.(entry := Some(v.entry.value.(ram := v.pending)), pending := 0)
    case UnbookRam => v.(entry := Some(v.entry.value.(ram := 0)), pending := v.entry.value.ram)
    case ReturnRam => v.(pending := 0)
    case TakeSlot(ip) => v.(entry := Some(v.entry.value.(slot := Some(ip))))
    case LoseSlotIp => v.(entry := Some(v.entry.value.(slot := Some(""))))
    case GiveSlot => v.(entry := Some(v.entry.value.(slot := None)))
    case Launch(m, started, _, _) => v.(entry := Some(v.entry.value.(process := Some(Process(m, !started, Thawed)))))
    case MarkExited => v.(entry := Some(v.entry.value.(process := Some(v.entry.value.process.value.(exited := true)))))
    case DropProcess => v.(entry := Some(v.entry.value.(process := None)))
    case SetFreeze(f) => v.(entry := Some(v.entry.value.(process := Some(v.entry.value.process.value.(freeze := f)))))
    case SetLease(h) => v.(lease := h)
  }

  /** The actions taken under one lock, oldest first. */
  datatype Trail = Nil | Snoc(before: Trail, last: Action)

  /** Replays a trail on a single view; nothing if one of its actions is not allowed there. */
  function LocalExec(v: View, t: Trail): Option<View> {
    match t
    case Nil => Some(v)
    case Snoc(t', a) =>
      var u := LocalExec(v, t');
      if u.Some? && LocalOk(u.value, a) then Some(ApplyLocal(u.value, a)) else None
  }

  /** The view of a sandbox whose route slot the registry dropped when it closed. */
  function Cut(v: View, closed: bool): View { if closed then v.(route := None) else v }

  /** An operation in flight when the registry closes goes on as it would have: without its slot it
      may still do all it would do with it, except publish, and ends in the same view but for the slot. */
  lemma CutOk(v: View, a: Action)
    requires LocalOk(v, a) && !a.InsertRoute? && !a.PublishRoute?
    ensures LocalOk(Cut(v, true), a) && ApplyLocal(Cut(v, true), a) == Cut(ApplyLocal(v, a), true)
  {
  }

  predicate CapacityAvailable(w: World, x: Alloc) {
    && (w.limits.maxSandboxes > 0 ==> |w.reservations| < w.limits.maxSandboxes)
    && x.cpus <= w.limits.maxCpus - w.used.cpus
    && x.memoryMB <= w.limits.maxMemoryMB - w.used.memoryMB
  }

  /** What an action needs of the shared state at the instant it happens. */
  ghost predicate GlobalOk(w: World, a: Action) {
    match a
    case PutEntry(g) => g == w.nextGen
    case Reserve(x) => CapacityAvailable(w, x)
    case InsertRoute(l) => !w.routes.closed && l == w.routes.next
    case PublishRoute(_) => !w.routes.closed
    case WithdrawRoute(l) => l == w.routes.next
    case TakeCid(c) => c == w.nextCid && c <= MAX_CID
    case TakeRam(mb) => (w.usedRAM + mb) as real <= w.limits.ramLimit
    case TakeSlot(ip) => forall j :: j in w.entries ==> w.entries[j].slot != Some(ip)
    case Launch(m, _, _, metered) => m == w.nextVmm && metered == w.limits.metered
    case _ => true
  }

  ghost predicate Enabled(w: World, id: Id, a: Action) {
    LocalOk(ViewOf(w, id), a) && GlobalOk(w, a)
  }

  function Cpus(x: Alloc): int { x.cpus }
  function MemoryMB(x: Alloc): int { x.memoryMB }
  function EntryRam(e: Entry): int { e.ram }
  function PendingRam(n: nat): int { n }
  function RamOf(v: View): int { Weight(v.entry, EntryRam) + v.pending }

  /** The registry event an action is. */
  function RouteEvent(id: Id, a: Action): Option<Event> {
    match a
    case InsertRoute(_) => Some(Event.Insert(id))
    case PublishRoute(ip) => Some(Event.Publish(id, ip))
    case WithdrawRoute(_) => Some(Event.Unpublish(id))
    case ReleaseRoute => Some(Event.Release(id))
    case _ => None
  }

  /** The table of live VMMs after an action. */
  function LiveAfter(w: World, id: Id, a: Action): map<nat, Vmm>
    requires LocalOk(ViewOf(w, id), a)
  {
    match a
    case Launch(m, started, mem, _) =>
      if started then w.live[m := Vmm(id, w.cids[id], mem)] else w.live
    case MarkExited => w.live - {w.entries[id].process.value.vmm}
    case _ => w.live
  }

  /** The world after an atomic action of the operation holding the lock of `id`. */
  function Apply(w: World, id: Id, a: Action): World
    requires LocalOk(ViewOf(w, id), a)
  {
    var v := ViewOf(w, id);
    var u := ApplyLocal(v, a);
    var event := RouteEvent(id, a);
    World(w.limits, Set(w.store, id, u.rec), Set(w.entries, id, u.entry), Set(w.reservations, id, u.resv),
          Alloc(w.used.cpus - Weight(v.resv, Cpus) + Weight(u.resv, Cpus),
                w.used.memoryMB - Weight(v.resv, MemoryMB) + Weight(u.resv, MemoryMB)),
          w.usedRAM - RamOf(v) + RamOf(u),
          w.pending[id := u.pending],
          if event.Some? then Next(w.routes, event.value) else w.routes,
          w.requests,
          Set(w.cids, id, u.cid), if a.TakeCid? then w.nextCid + 1 else w.nextCid,
          if u.lease then w.leases + {id} else w.leases - {id},
          LiveAfter(w, id, a), if a.Launch? then w.nextVmm + 1 else w.nextVmm,
          if a.PutEntry? then w.nextGen + 1 else w.nextGen)
  }

  // ---------------------------------------------------------------------------------------------
  // The invariant of every instant
  // ---------------------------------------------------------------------------------------------

  /** The capacity ledger: totals are the exact sums of the reservations and respect the limits. */
  ghost predicate LedgerInv(limits: Limits, held: map<Id, Alloc>, used: Alloc) {
    && used == Alloc(Sum(held, Cpus), Sum(held, MemoryMB))
    && (forall id :: id in held ==> held[id].cpus > 0 && held[id].memoryMB > 0)
    && (held != map[] ==> used.cpus <= limits.maxCpus && used.memoryMB <= limits.maxMemoryMB)
    && (limits.maxSandboxes > 0 ==> |held| <= limits.maxSandboxes)
  }

  /** The RAM counter: exactly the RAM booked on entries plus the RAM in flight, within the limit. */
  ghost predicate RamInv(w: World) {
    && w.usedRAM == Sum(w.entries, EntryRam) + Sum(w.pending, PendingRam)
    && (w.usedRAM > 0 ==> w.usedRAM as real <= w.limits.ramLimit)
  }

  /** No two entries hold network slots with one address. */
  ghost predicate SlotInv(entries: map<Id, Entry>) {
    forall i, j :: i in entries && j in entries && i != j && entries[i].slot.Some? && entries[i].slot.value != ""
      ==> entries[j].slot != entries[i].slot
  }

  /** A published route points at the slot its sandbox's entry still holds. */
  ghost predicate RouteInv(slots: map<Id, RouteSlot>, entries: map<Id, Entry>) {
    forall id :: id in slots && slots[id].ip != "" ==> id in entries && entries[id].slot == Some(slots[id].ip)
  }

  /** A request carries an address its lifetime was published with. */
  ghost predicate RequestInv(requests: set<Request>, t: Table) {
    forall r :: r in requests ==> r.lifetime in t.ever && t.ever[r.lifetime] == r.ip
  }

  /** Context ids are assigned once, to one sandbox each. */
  ghost predicate CidInv(cids: map<Id, nat>, next: nat) {
    && MIN_CID <= next <= MAX_CID + 1
    && (forall id :: id in cids ==> MIN_CID <= cids[id] < next)
    && (forall i, j :: i in cids && j in cids && cids[i] == cids[j] ==> i == j)
  }

  /** The process an entry holds is the VMM `m`, running. */
  predicate Runs(e: Entry, m: nat) {
    e.process.Some? && e.process.value.vmm == m && !e.process.value.exited
  }

  /** A live VMM is the process of its sandbox's current entry, under the sandbox's context id and,
      on a metered node, with its memory booked on that entry. */
  ghost predicate VmmInv(live: map<nat, Vmm>, entries: map<Id, Entry>, cids: map<Id, nat>, metered: bool) {
    forall m :: m in live ==>
      && live[m].owner in entries && Runs(entries[live[m].owner], m)
      && (metered ==> live[m].mem == entries[live[m].owner].ram)
      && live[m].owner in cids && cids[live[m].owner] == live[m].cid
  }

  /** Process handles and entry identities are never reused, and no two entries hold one process. */
  ghost predicate HandleInv(entries: map<Id, Entry>, nextVmm: nat, nextGen: nat) {
    && (forall id :: id in entries ==> entries[id].gen < nextGen)
    && (forall id :: id in entries && entries[id].process.Some? ==> entries[id].process.value.vmm < nextVmm)
    && (forall i, j :: i in entries && j in entries && i != j && entries[i].process.Some? && entries[j].process.Some?
          ==> entries[i].process.value.vmm != entries[j].process.value.vmm)
  }

  ghost predicate Inv(w: World) {
    && LedgerInv(w.limits, w.reservations, w.used) && RamInv(w)
    && SlotInv(w.entries) && RouteInv(w.routes.slots, w.entries)
    && Sound(w.routes) && RequestInv(w.requests, w.routes)
    && CidInv(w.cids, w.nextCid)
    && VmmInv(w.live, w.entries, w.cids, w.limits.metered) && HandleInv(w.entries, w.nextVmm, w.nextGen)
    && (forall m :: m in w.live ==> m < w.nextVmm)
  }

  // ---------------------------------------------------------------------------------------------
  // Locality: the lock of one id isolates its view
  // ---------------------------------------------------------------------------------------------

  lemma RoutesLocal(w: World, id: Id, a: Action, j: Id)
    requires Enabled(w, id, a)
    ensures Lookup(Apply(w, id, a).routes.slots, j)
         == if j == id then ApplyLocal(ViewOf(w, id), a).route else Lookup(w.routes.slots, j)
  {
    match a
    case InsertRoute(_) =>
    case PublishRoute(_) =>
    case WithdrawRoute(_) =>
    case ReleaseRoute =>
    case _ => assert Apply(w, id, a).routes == w.routes;
  }

  /** An action changes the view of its own id as the local rule says and no other view. */
  lemma ActionIsLocal(w: World, id: Id, a: Action, j: Id)
    requires Enabled(w, id, a)
    ensures ViewOf(Apply(w, id, a), j) == if j == id then ApplyLocal(ViewOf(w, id), a) else ViewOf(w, j)
  {
    RoutesLocal(w, id, a, j);
    CommitIsLocal(w, id, ApplyLocal(ViewOf(w, id), a), Apply(w, id, a), j);
  }

  lemma CommitIsLocal(w: World, id: Id, u: View, z: World, j: Id)
    requires z.store == Set(w.store, id, u.rec) && z.entries == Set(w.entries, id, u.entry)
    requires z.reservations == Set(w.reservations, id, u.resv) && z.cids == Set(w.cids, id, u.cid)
    requires z.pending == w.pending[id := u.pending]
    requires z.leases == if u.lease then w.leases + {id} else w.leases - {id}
    requires Lookup(z.routes.slots, j) == if j == id then u.route else Lookup(w.routes.slots, j)
    ensures ViewOf(z, j) == if j == id then u else ViewOf(w, j)
  {
  }

  // ---------------------------------------------------------------------------------------------
  // Every action keeps the invariant
  // ---------------------------------------------------------------------------------------------

  /** The effect of an action on the parts of a view the shared invariant speaks about. */
  lemma LocalEffects(v: View, a: Action)
    requires LocalOk(v, a)
    ensures var u := ApplyLocal(v, a);
            && (a.Reserve? || a.Unreserve? || u.resv == v.resv)
            && (a.TakeCid? || a.FreeCid? || u.cid == v.cid)
            && (a.TakeRam? || RamOf(u) <= RamOf(v))
  {
  }

  /** How an action can change the slot of the entry and the publication of the route. */
  lemma SlotEffects(v: View, a: Action)
    requires LocalOk(v, a)
    requires v.route.Some? && v.route.value.ip != "" ==> v.entry.Some? && v.entry.value.slot == Some(v.route.value.ip)
    ensures var u := ApplyLocal(v, a);
            && (a.TakeSlot? || u.entry.None? || u.entry.value.slot in {None, Some("")}
                || (v.entry.Some? && u.entry.value.slot == v.entry.value.slot))
            && (u.route.Some? && u.route.value.ip != "" ==>
                 u.entry.Some? && u.entry.value.slot == Some(u.route.value.ip))
  {
  }

  predicate Handles(v: View) { v.entry.Some? && v.entry.value.process.Some? }

  /** Only Launch gives an entry a process; only DropProcess takes it, once it has exited. */
  lemma ProcessEffects(v: View, a: Action)
    requires LocalOk(v, a) && !a.Launch?
    ensures var u := ApplyLocal(v, a);
            && (Handles(u) ==> Handles(v) && u.entry.value.process.value.vmm == v.entry.value.process.value.vmm)
            && (Handles(v) && !v.entry.value.process.value.exited && !a.MarkExited? ==>
                  && Handles(u) && !u.entry.value.process.value.exited
                  && u.entry.value.ram == v.entry.value.ram && (v.cid.Some? ==> u.cid == v.cid))
            && (u.entry.None? || a.PutEntry? || (v.entry.Some? && u.entry.value.gen == v.entry.value.gen))
  {
  }

  lemma LaunchEffects(v: View, a: Action)
    requires LocalOk(v, a) && a.Launch?
    ensures var u := ApplyLocal(v, a);
            && !Handles(v) && Handles(u) && u.entry.value.process.value == Process(a.vmm, !a.started, Thawed)
            && u.entry.value.ram == v.entry.value.ram && u.entry.value.gen == v.entry.value.gen && u.cid == v.cid
  {
  }

  lemma KeepsLedger(limits: Limits, held: map<Id, Alloc>, used: Alloc, id: Id, o: Option<Alloc>)
    requires LedgerInv(limits, held, used)
    requires o.Some? && o != Lookup(held, id) ==>
      && id !in held && o.value.cpus > 0 && o.value.memoryMB > 0
      && (limits.maxSandboxes > 0 ==> |held| < limits.maxSandboxes)
      && o.value.cpus <= limits.maxCpus - used.cpus && o.value.memoryMB <= limits.maxMemoryMB - used.memoryMB
    ensures LedgerInv(limits, Set(held, id, o),
                      Alloc(used.cpus - Weight(Lookup(held, id), Cpus) + Weight(o, Cpus),
                            used.memoryMB - Weight(Lookup(held, id), MemoryMB) + Weight(o, MemoryMB)))
  {
    SumSet(held, Cpus, id, o);
    SumSet(held, MemoryMB, id, o);
    var after := Set(held, id, o);
    if o.None? {
      assert after.Keys == held.Keys - {id};
    } else if id in held {
      assert after == held;
    } else {
      assert after.Keys == held.Keys + {id};
    }
  }

  lemma KeepsRam(w: World, id: Id, a: Action)
    requires RamInv(w) && Enabled(w, id, a)
    ensures RamInv(Apply(w, id, a))
  {
    var v := ViewOf(w, id);
    var u := ApplyLocal(v, a);
    LocalEffects(v, a);
    SumSet(w.entries, EntryRam, id, u.entry);
    SumSet(w.pending, PendingRam, id, Some(u.pending));
  }

  lemma KeepsSlots(entries: map<Id, Entry>, id: Id, o: Option<Entry>)
    requires SlotInv(entries)
    requires o.Some? && o.value.slot.Some? && o.value.slot.value != "" ==>
      || (id in entries && entries[id].slot == o.value.slot)
      || forall j :: j in entries ==> entries[j].slot != o.value.slot
    ensures SlotInv(Set(entries, id, o))
  {
  }

  lemma KeepsRoutes(slots: map<Id, RouteSlot>, after: map<Id, RouteSlot>, entries: map<Id, Entry>, id: Id,
      o: Option<Entry>)
    requires RouteInv(slots, entries)
    requires forall j :: j in after && j != id ==> j in slots && after[j] == slots[j]
    requires id in after && after[id].ip != "" ==> o.Some? && o.value.slot == Some(after[id].ip)
    ensures RouteInv(after, Set(entries, id, o))
  {
  }

  lemma KeepsCids(cids: map<Id, nat>, next: nat, id: Id, o: Option<nat>)
    requires CidInv(cids, next)
    requires o.None? || o == Lookup(cids, id) || (o == Some(next) && next <= MAX_CID)
    ensures CidInv(Set(cids, id, o), if o.None? || o == Lookup(cids, id) then next else next + 1)
  {
  }

  /** Live VMMs of other ids are untouched; the one of `id`, if it stays live, is still held. */
  lemma KeepsVmms(live: map<nat, Vmm>, after: map<nat, Vmm>, entries: map<Id, Entry>, cids: map<Id, nat>,
                  id: Id, e: Option<Entry>, c: Option<nat>, metered: bool)
    requires VmmInv(live, entries, cids, metered)
    requires forall m :: m in after && after[m].owner != id ==> m in live && after[m] == live[m]
    requires forall m :: m in after && after[m].owner == id ==>
               e.Some? && Runs(e.value, m) && (metered ==> after[m].mem == e.value.ram) && c == Some(after[m].cid)
    ensures VmmInv(after, Set(entries, id, e), Set(cids, id, c), metered)
  {
  }

  lemma KeepsHandles(entries: map<Id, Entry>, nextVmm: nat, nextGen: nat, id: Id, o: Option<Entry>, nextVmm': nat,
      nextGen': nat)
    requires HandleInv(entries, nextVmm, nextGen) && nextVmm <= nextVmm' && nextGen <= nextGen'
    requires o.Some? ==> o.value.gen < nextGen'
    requires o.Some? && o.value.process.Some? ==>
      || (id in entries && entries[id].process.Some? && o.value.process.value.vmm == entries[id].process.value.vmm)
      || nextVmm <= o.value.process.value.vmm < nextVmm'
    ensures HandleInv(Set(entries, id, o), nextVmm', nextGen')
  {
  }

  lemma ActionKeepsSlots(w: World, id: Id, a: Action)
    requires SlotInv(w.entries) && RouteInv(w.routes.slots, w.entries) && Enabled(w, id, a)
    ensures SlotInv(Apply(w, id, a).entries)
  {
    SlotEffects(ViewOf(w, id), a);
    KeepsSlots(w.entries, id, ApplyLocal(ViewOf(w, id), a).entry);
  }

  lemma ActionKeepsPublished(w: World, id: Id, a: Action)
    requires RouteInv(w.routes.slots, w.entries) && Enabled(w, id, a)
    ensures RouteInv(Apply(w, id, a).routes.slots, Apply(w, id, a).entries)
  {
    var after := Apply(w, id, a).routes.slots;
    SlotEffects(ViewOf(w, id), a);
    forall j | j in after && j != id ensures j in w.routes.slots && after[j] == w.routes.slots[j] {
      RoutesLocal(w, id, a, j);
    }
    RoutesLocal(w, id, a, id);
    KeepsRoutes(w.routes.slots, after, w.entries, id, ApplyLocal(ViewOf(w, id), a).entry);
  }

  lemma ActionKeepsHandles(w: World, id: Id, a: Action)
    requires HandleInv(w.entries, w.nextVmm, w.nextGen) && Enabled(w, id, a)
    ensures var z := Apply(w, id, a); HandleInv(z.entries, z.nextVmm, z.nextGen)
  {
    var v := ViewOf(w, id);
    if a.Launch? { LaunchEffects(v, a); } else { ProcessEffects(v, a); }
    var z := Apply(w, id, a);
    KeepsHandles(w.entries, w.nextVmm, w.nextGen, id, ApplyLocal(v, a).entry, z.nextVmm, z.nextGen);
  }

  /** The VMM of a sandbox that is live after an action is the running process of its entry. */
  lemma LiveIsHeld(w: World, id: Id, a: Action, m: nat)
    requires VmmInv(w.live, w.entries, w.cids, w.limits.metered) && Enabled(w, id, a)
    requires m in LiveAfter(w, id, a) && LiveAfter(w, id, a)[m].owner == id
    ensures var u, vmm := ApplyLocal(ViewOf(w, id), a), LiveAfter(w, id, a)[m];
            && u.entry.Some? && Runs(u.entry.value, m) && u.cid == Some(vmm.cid)
            && (w.limits.metered ==> vmm.mem == u.entry.value.ram)
  {
    if a.Launch? { LaunchEffects(ViewOf(w, id), a); } else { ProcessEffects(ViewOf(w, id), a); }
  }

  lemma ActionKeepsVmms(w: World, id: Id, a: Action)
    requires VmmInv(w.live, w.entries, w.cids, w.limits.metered) && (forall m :: m in w.live ==> m < w.nextVmm)
    requires Enabled(w, id, a)
    ensures var z := Apply(w, id, a);
            VmmInv(z.live, z.entries, z.cids, z.limits.metered) && forall m :: m in z.live ==> m < z.nextVmm
  {
    var u := ApplyLocal(ViewOf(w, id), a);
    var after := LiveAfter(w, id, a);
    forall m | m in after && after[m].owner == id
      ensures u.entry.Some? && Runs(u.entry.value, m) && u.cid == Some(after[m].cid)
      ensures w.limits.metered ==> after[m].mem == u.entry.value.ram
    {
      LiveIsHeld(w, id, a, m);
    }
    KeepsVmms(w.live, after, w.entries, w.cids, id, u.entry, u.cid, w.limits.metered);
  }

  /** Only Reserve gives a sandbox a reservation, and only a positive one to a sandbox without. */
  lemma ReserveEffects(v: View, a: Action)
    requires LocalOk(v, a)
    ensures var u := ApplyLocal(v, a);
            u.resv.Some? && u.resv != v.resv ==>
              && a.Reserve? && u.resv.value == a.alloc && v.resv.None? && a.alloc.cpus > 0 && a.alloc.memoryMB > 0
  {
  }

  lemma AdmittedFits(w: World, id: Id, a: Action)
    requires Enabled(w, id, a)
    ensures var o := ApplyLocal(ViewOf(w, id), a).resv;
            o.Some? && o != Lookup(w.reservations, id) ==>
              && id !in w.reservations && o.value.cpus > 0 && o.value.memoryMB > 0
              && (w.limits.maxSandboxes > 0 ==> |w.reservations| < w.limits.maxSandboxes)
              && o.value.cpus <= w.limits.maxCpus - w.used.cpus
              && o.value.memoryMB <= w.limits.maxMemoryMB - w.used.memoryMB
  {
    ReserveEffects(ViewOf(w, id), a);
  }

  lemma ActionKeepsLedger(w: World, id: Id, a: Action)
    requires LedgerInv(w.limits, w.reservations, w.used) && Enabled(w, id, a)
    ensures var z := Apply(w, id, a); LedgerInv(z.limits, z.reservations, z.used)
  {
    AdmittedFits(w, id, a);
    KeepsLedger(w.limits, w.reservations, w.used, id, ApplyLocal(ViewOf(w, id), a).resv);
  }

  lemma ActionKeepsCids(w: World, id: Id, a: Action)
    requires CidInv(w.cids, w.nextCid) && Enabled(w, id, a)
    ensures var z := Apply(w, id, a); CidInv(z.cids, z.nextCid)
  {
    LocalEffects(ViewOf(w, id), a);
    KeepsCids(w.cids, w.nextCid, id, ApplyLocal(ViewOf(w, id), a).cid);
  }

  lemma ActionKeepsRoutes(w: World, id: Id, a: Action)
    requires Sound(w.routes) && RequestInv(w.requests, w.routes) && Enabled(w, id, a)
    ensures var z := Apply(w, id, a); Sound(z.routes) && RequestInv(z.requests, z.routes) && Extends(w.routes, z.routes)
  {
    if RouteEvent(id, a).Some? { NextSound(w.routes, RouteEvent(id, a).value); }
  }

  /** Any enabled action of any operation keeps the whole invariant. */
  lemma ActionKeepsInv(w: World, id: Id, a: Action)
    requires Inv(w) && Enabled(w, id, a)
    ensures Inv(Apply(w, id, a)) && Extends(w.routes, Apply(w, id, a).routes)
  {
    ActionKeepsLedger(w, id, a);
    ActionKeepsCids(w, id, a);
    ActionKeepsRoutes(w, id, a);
    KeepsRam(w, id, a);
    ActionKeepsSlots(w, id, a);
    ActionKeepsPublished(w, id, a);
    ActionKeepsVmms(w, id, a);
    ActionKeepsHandles(w, id, a);
  }
}
