/** The proxy's route registry (internal/sandboxproxy/registry.go): one route slot per sandbox,
    each with a cancellable lifetime that in-flight requests inherit. */
module RouteRegistry {
  import opened Domain

  /** A slot is unpublished while its address is empty. */
  datatype RouteSlot = RouteSlot(ip: Ip, lifetime: nat)

  /** The registry together with what its run has done so far: `next` counts the lifetimes handed
      out, `cancelled` the ones whose cancel function ran, and `ever` the address each lifetime
      has been published with. */
  datatype Table = Table(
    slots: map<Id, RouteSlot>,
    closed: bool,
    next: nat,
    cancelled: set<nat>,
    ever: map<nat, Ip>)

  const EMPTY := Table(map[], false, 0, {}, map[])

  datatype RouteState = Absent | Unpublished | Published

  datatype Event =
    | Insert(id: Id)
    | Publish(id: Id, ip: Ip)
    | Unpublish(id: Id)
    | Release(id: Id)
    | Close

  predicate PublishAccepted(t: Table, id: Id, ip: Ip) {
    && !t.closed
    && ip != ""
    && id in t.slots
    && (t.slots[id].ip == "" || t.slots[id].ip == ip)
  }

  /** What one event does to the registry; a refused event leaves it as it was. */
  function Next(t: Table, e: Event): Table {
    match e
    case Insert(id) =>
      if t.closed then t else
        t.(slots := t.slots[id := RouteSlot("", t.next)],
           next := t.next + 1,
           cancelled := if id in t.slots then t.cancelled + {t.slots[id].lifetime} else t.cancelled)
    case Publish(id, ip) =>
      if !PublishAccepted(t, id, ip) then t else
        t.(slots := t.slots[id := t.slots[id].(ip := ip)],
           ever := t.ever[t.slots[id].lifetime := ip])
    case Unpublish(id) =>
      if id !in t.slots || t.slots[id].ip == "" then t else
        t.(slots := t.slots[id := RouteSlot("", t.next)],
           next := t.next + 1,
           cancelled := t.cancelled + {t.slots[id].lifetime})
    case Release(id) =>
      if id !in t.slots then t else
        t.(slots := t.slots - {id}, cancelled := t.cancelled + {t.slots[id].lifetime})
    case Close =>
      if t.closed then t else
        t.(slots := map[], closed := true,
           cancelled := t.cancelled + Lifetimes(t.slots))
  }

  function Lifetimes(slots: map<Id, RouteSlot>): set<nat> {
    set id | id in slots :: slots[id].lifetime
  }

  ghost predicate Owns(t: Table, id: Id, l: nat) {
    id in t.slots && t.slots[id].lifetime == l
  }

  /** A present slot's lifetime is live, and an address is on record for it exactly while the
      slot is published. */
  ghost predicate SlotSound(t: Table, r: RouteSlot) {
    && r.lifetime < t.next
    && r.lifetime !in t.cancelled
    && (if r.ip == "" then r.lifetime !in t.ever else r.lifetime in t.ever && t.ever[r.lifetime] == r.ip)
  }

  /** Every uncancelled lifetime belongs to a present slot. */
  ghost predicate Covered(t: Table) {
    forall l: nat :: l < t.next && l !in t.cancelled ==> exists id :: Owns(t, id, l)
  }

  /** The uncancelled lifetimes are exactly those of the present slots, and no two slots share one. */
  ghost predicate Sound(t: Table) {
    && (forall l :: l in t.cancelled ==> l < t.next)
    && (forall l :: l in t.ever ==> l < t.next)
    && (forall id :: id in t.slots ==> SlotSound(t, t.slots[id]))
    && (forall i, j :: i in t.slots && j in t.slots && t.slots[i].lifetime == t.slots[j].lifetime ==> i == j)
    && Covered(t)
    && (t.closed ==> t.slots == map[])
  }

  /** History only grows: lifetimes stay cancelled, a recorded address never changes. */
  ghost predicate Extends(t: Table, u: Table) {
    && t.next <= u.next
    && t.cancelled <= u.cancelled
    && (forall l :: l in t.ever ==> l in u.ever && u.ever[l] == t.ever[l])
    && (t.closed ==> u.closed)
  }

  lemma NextCovered(t: Table, e: Event)
    requires Sound(t)
    ensures Covered(Next(t, e))
  {
    var u := Next(t, e);
    forall l: nat | l < u.next && l !in u.cancelled ensures exists id :: Owns(u, id, l) {
      if l < t.next {
        var id :| Owns(t, id, l);
        assert Owns(u, id, l);
      } else {
        assert Owns(u, e.id, l);
      }
    }
  }

  lemma NextSlotSound(t: Table, e: Event, id: Id)
    requires Sound(t) && id in Next(t, e).slots
    ensures SlotSound(Next(t, e), Next(t, e).slots[id])
  {
  }

  lemma NextDistinct(t: Table, e: Event, i: Id, j: Id)
    requires Sound(t) && i in Next(t, e).slots && j in Next(t, e).slots
    requires Next(t, e).slots[i].lifetime == Next(t, e).slots[j].lifetime
    ensures i == j
  {
  }

  lemma NextSound(t: Table, e: Event)
    requires Sound(t)
    ensures Sound(Next(t, e)) && Extends(t, Next(t, e))
  {
    var u := Next(t, e);
    forall id | id in u.slots ensures SlotSound(u, u.slots[id]) { NextSlotSound(t, e, id); }
    forall i, j | i in u.slots && j in u.slots && u.slots[i].lifetime == u.slots[j].lifetime ensures i == j {
      NextDistinct(t, e, i, j);
    }
    NextCovered(t, e);
    assert Extends(t, u);
  }

  /** The registry after a whole run. */
  function Run(t: Table, events: seq<Event>): Table
    decreases |events|
  {
    if events == [] then t else Run(Next(t, events[0]), events[1..])
  }

  /** Whatever happens to the registry, it stays sound and its history only grows. */
  lemma {:induction false} RunSound(t: Table, events: seq<Event>)
    requires Sound(t)
    ensures Sound(Run(t, events)) && Extends(t, Run(t, events))
    decreases |events|
  {
    if events != [] {
      NextSound(t, events[0]);
      RunSound(Next(t, events[0]), events[1..]);
    }
  }

  /** A lifetime is never associated with two addresses: if it is the lifetime of a published
      slot now and again after any further events, both publications carry one address. */
  lemma LifetimeHasOneIp(t: Table, events: seq<Event>, i: Id, j: Id)
    requires Sound(t)
    requires i in t.slots && t.slots[i].ip != ""
    requires j in Run(t, events).slots && Run(t, events).slots[j].ip != ""
    requires Run(t, events).slots[j].lifetime == t.slots[i].lifetime
    ensures Run(t, events).slots[j].ip == t.slots[i].ip
  {
    RunSound(t, events);
  }

  /** Close is terminal: no slot survives it, every lifetime ever handed out is cancelled, and
      no later event brings a slot back. */
  lemma ClosedForEver(t: Table, events: seq<Event>)
    requires Sound(t)
    ensures var u := Run(Next(t, Close), events);
            u.closed && u.slots == map[] && forall l: nat :: l < u.next ==> l in u.cancelled
  {
    NextSound(t, Close);
    RunSound(Next(t, Close), events);
    var u := Run(Next(t, Close), events);
    assert forall id, l: nat :: !Owns(u, id, l);
  }

  lemma LifetimesPick(slots: map<Id, RouteSlot>, id: Id)
    requires id in slots
    ensures Lifetimes(slots) == {slots[id].lifetime} + Lifetimes(slots - {id})
  {
    forall l | l in Lifetimes(slots) ensures l in {slots[id].lifetime} + Lifetimes(slots - {id}) {
      var k :| k in slots && slots[k].lifetime == l;
      if k != id { assert k in slots - {id} && (slots - {id})[k].lifetime == l; }
    }
  }

  /** Runs the cancel function of every slot. */
  method CancelEach(slots: map<Id, RouteSlot>, before: set<nat>) returns (after: set<nat>)
    ensures after == before + Lifetimes(slots)
  {
    after := before;
    var todo := slots;
    while todo != map[]
      invariant after + Lifetimes(todo) == before + Lifetimes(slots)
      decreases todo
    {
      var id :| id in todo;
      LifetimesPick(todo, id);
      after := after + {todo[id].lifetime};
      todo := todo - {id};
    }
  }

  /** The registry object. */
  class Registry {
    var entries: map<Id, RouteSlot>
    var closed: bool
    var nextLifetime: nat
    var cancelled: set<nat>
    ghost var ever: map<nat, Ip>

    ghost function Contents(): Table reads this {
      Table(entries, closed, nextLifetime, cancelled, ever)
    }

    ghost predicate Valid() reads this { Sound(Contents()) }

    constructor ()
      ensures Valid() && Contents() == EMPTY
    {
      entries, closed, nextLifetime, cancelled, ever := map[], false, 0, {}, map[];
    }

    /** Returns the new slot's lifetime, or nothing once the registry is closed. */
    method InsertSlot(id: Id) returns (lifetime: Option<nat>)
      requires Valid()
      modifies this
      ensures Valid() && Contents() == Next(old(Contents()), Insert(id))
      ensures lifetime == if old(closed) then None else Some(old(nextLifetime))
      ensures lifetime.Some? ==> lifetime.value !in cancelled && lifetime.value !in ever
    {
      NextSound(Contents(), Insert(id));
      if closed { return None; }
      if id in entries { cancelled := cancelled + {entries[id].lifetime}; }
      lifetime := Some(nextLifetime);
      entries := entries[id := RouteSlot("", nextLifetime)];
      nextLifetime := nextLifetime + 1;
    }

    /** `valid` is the verdict of parsing the address and the mask. */
    method PublishRoute(id: Id, ip: Ip, valid: bool) returns (ok: bool)
      requires Valid() && (valid ==> ip != "")
      modifies this
      ensures Valid()
      ensures ok <==> valid && !old(closed) && id in old(entries) && old(entries)[id].ip in {"", ip}
      ensures Contents() == if ok then Next(old(Contents()), Publish(id, ip)) else old(Contents())
      ensures ok ==> entries[id] == RouteSlot(ip, old(entries)[id].lifetime)
    {
      NextSound(Contents(), Publish(id, ip));
      if !valid { return false; }
      if closed { return false; }
      if id !in entries { return false; }
      var current := entries[id];
      if current.ip != "" && current.ip != ip { return false; }
      ever := ever[current.lifetime := ip];
      entries := entries[id := current.(ip := ip)];
      ok := true;
    }

    /** Requests attached to the withdrawn route stop; the slot stays for waiters. */
    method UnpublishRoute(id: Id)
      requires Valid()
      modifies this
      ensures Valid() && Contents() == Next(old(Contents()), Unpublish(id))
      ensures id in old(entries) ==> id in entries && entries[id].ip == ""
      ensures id in old(entries) && old(entries)[id].ip != "" ==> old(entries)[id].lifetime in cancelled
    {
      NextSound(Contents(), Unpublish(id));
      if id !in entries || entries[id].ip == "" { return; }
      cancelled := cancelled + {entries[id].lifetime};
      entries := entries[id := RouteSlot("", nextLifetime)];
      nextLifetime := nextLifetime + 1;
    }

    method ReleaseSlot(id: Id)
      requires Valid()
      modifies this
      ensures Valid() && Contents() == Next(old(Contents()), Release(id))
      ensures id !in entries
      ensures id in old(entries) ==> old(entries)[id].lifetime in cancelled
    {
      NextSound(Contents(), Release(id));
      if id in entries {
        cancelled := cancelled + {entries[id].lifetime};
        entries := entries - {id};
      }
    }

    /** Reads a slot and its visibility in one lock hold. A published route is always live. */
    method RouteFor(id: Id) returns (route: Option<RouteSlot>, state: RouteState)
      requires Valid()
      ensures state.Absent? <==> id !in entries
      ensures state.Published? <==> id in entries && entries[id].ip != ""
      ensures route == Lookup(entries, id)
      ensures route.Some? ==> route.value.lifetime !in cancelled
    {
      if id !in entries { return None, Absent; }
      route := Some(entries[id]);
      state := if entries[id].ip == "" then Unpublished else Published;
    }

    /** Invalidates every attached request and refuses all later slots. */
    method CloseAll()
      requires Valid()
      modifies this
      ensures Valid() && Contents() == Next(old(Contents()), Close)
      ensures closed && entries == map[]
      ensures forall l: nat :: l < nextLifetime ==> l in cancelled
    {
      NextSound(Contents(), Close);
      ClosedForEver(Contents(), []);
      if closed { return; }
      closed := true;
      cancelled := CancelEach(entries, cancelled);
      entries := map[];
    }
  }
}
