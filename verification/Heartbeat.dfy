/** The resource totals of a node's heartbeat (internal/cluster/node_snapshot.go), in the fixed-width
    counters of the wire format. */
module Heartbeat {
  import opened Domain
  import opened Pagination

  const MAX_UINT32 := 0xFFFF_FFFF
  const MAX_UINT64 := 0xFFFF_FFFF_FFFF_FFFF
  const MIB := 1024 * 1024

  /** A record's state as stored text; a text that names no state is `Invalid`. */
  datatype StoredState = Known(state: State) | Invalid

  datatype Usage = Usage(id: Id, cpus: int, ramMB: int, state: StoredState)

  datatype Totals = Totals(cpu: int, bytes: int)
  datatype Snapshot = Snapshot(active: Totals, paused: Totals, starting: int, running: int, pausedCount: int)

  predicate IsPaused(u: Usage) { u.state == Known(Paused) }

  predicate Legal(u: Usage) { u.id != "" && u.cpus >= 0 && u.ramMB >= 0 && u.state.Known? }

  // What the numbers should be, over unbounded integers.

  function Exact(records: seq<Usage>, paused: bool): Totals {
    if records == [] then Totals(0, 0)
    else
      var u, rest := records[|records| - 1], Exact(records[..|records| - 1], paused);
      if IsPaused(u) == paused then Totals(rest.cpu + u.cpus, rest.bytes + u.ramMB * MIB) else rest
  }

  function Count(records: seq<Usage>, which: set<State>): nat {
    if records == [] then 0
    else
      var u := records[|records| - 1];
      Count(records[..|records| - 1], which) + if u.state.Known? && u.state.state in which then 1 else 0
  }

  ghost predicate Fits(t: Totals) { 0 <= t.cpu <= MAX_UINT32 && 0 <= t.bytes <= MAX_UINT64 }

  ghost predicate AllLegal(records: seq<Usage>) { forall i :: 0 <= i < |records| ==> Legal(records[i]) }

  lemma {:induction false} NeverNegative(records: seq<Usage>, paused: bool)
    requires AllLegal(records)
    ensures Exact(records, paused).cpu >= 0 && Exact(records, paused).bytes >= 0
  {
    if records != [] { NeverNegative(records[..|records| - 1], paused); }
  }

  /** Totals only grow: if a prefix does not fit, the whole does not. */
  lemma {:induction false} PrefixFits(records: seq<Usage>, n: nat, paused: bool)
    requires n <= |records| && AllLegal(records) && Fits(Exact(records, paused))
    ensures Fits(Exact(records[..n], paused))
    decreases |records|
  {
    if n == |records| {
      assert records[..n] == records;
    } else {
      var m := |records| - 1;
      NeverNegative(records[..m], paused);
      PrefixFits(records[..m], n, paused);
      assert records[..m][..n] == records[..n];
    }
  }

  predicate SortedIds(s: seq<Id>) { forall i, j :: 0 <= i < j < |s| ==> !Before(s[j], s[i]) }

  method InsertId(s: seq<Id>, x: Id) returns (r: seq<Id>)
    requires SortedIds(s)
    ensures SortedIds(r) && multiset(r) == multiset(s) + multiset{x}
  {
    var i := 0;
    while i < |s| && !Before(x, s[i])
      invariant 0 <= i <= |s|
      invariant forall j :: 0 <= j < i ==> !Before(x, s[j])
    {
      i := i + 1;
    }
    r := s[..i] + [x] + s[i..];
    assert s == s[..i] + s[i..];
    forall j | i <= j < |s| ensures !Before(s[j], x) {
      BeforeTotal(s[j], s[i]);
      BeforeTotal(s[i], s[i]);
      if Before(s[j], x) { BeforeTransitive(s[j], x, s[i]); }
    }
  }

  function Ids(records: seq<Usage>): seq<Id> { seq(|records|, i requires 0 <= i < |records| => records[i].id) }

  /** Wrapping additions of the counters. */
  function Add32(a: int, b: int): int { (a + b) % (MAX_UINT32 + 1) }
  function Add64(a: int, b: int): int { (a + b) % (MAX_UINT64 + 1) }

  /** The check made before adding, without leaving the width of the counters. */
  predicate Overflows(t: Totals, u: Usage) {
    u.cpus > MAX_UINT32 - t.cpu || u.ramMB > (MAX_UINT64 - t.bytes) / MIB
  }

  lemma OverflowIsExact(t: Totals, u: Usage)
    requires Fits(t) && u.cpus >= 0 && u.ramMB >= 0
    ensures Overflows(t, u) <==> !Fits(Totals(t.cpu + u.cpus, t.bytes + u.ramMB * MIB))
  {
  }

  function Plus(t: Totals, u: Usage): Totals {
    Totals(Add32(t.cpu, u.cpus), Add64(t.bytes, u.ramMB * MIB % (MAX_UINT64 + 1)))
  }

  lemma PlusIsExact(t: Totals, u: Usage)
    requires Fits(t) && u.cpus >= 0 && u.ramMB >= 0 && !Overflows(t, u)
    ensures Plus(t, u) == Totals(t.cpu + u.cpus, t.bytes + u.ramMB * MIB)
  {
    OverflowIsExact(t, u);
  }

  /** The counters after one more legal record. */
  function Note(s: Snapshot, u: Usage): Snapshot
    requires u.state.Known?
  {
    match u.state.state
    case Paused => s.(paused := Plus(s.paused, u), pausedCount := Add32(s.pausedCount, 1))
    case Creating => s.(active := Plus(s.active, u), starting := Add32(s.starting, 1))
    case Unknown => s.(active := Plus(s.active, u))
    case _ => s.(active := Plus(s.active, u), running := Add32(s.running, 1))
  }

  /** The counters hold the exact totals, which fit, and the counts. */
  ghost predicate Holds(s: Snapshot, records: seq<Usage>) {
    && s.active == Exact(records, false) && s.paused == Exact(records, true)
    && Fits(s.active) && Fits(s.paused)
    && s.starting == Count(records, {Creating}) % (MAX_UINT32 + 1)
    && s.running == Count(records, {Ready, Suspended}) % (MAX_UINT32 + 1)
    && s.pausedCount == Count(records, {Paused}) % (MAX_UINT32 + 1)
  }

  lemma CountOn(records: seq<Usage>, n: nat, which: set<State>)
    requires n < |records|
    ensures var c, u := Count(records[..n], which), records[n];
            && Count(records[..n + 1], which) == c + (if u.state.Known? && u.state.state in which then 1 else 0)
            && (c + 1) % (MAX_UINT32 + 1) == Add32(c % (MAX_UINT32 + 1), 1)
  {
    assert records[..n + 1][..n] == records[..n];
  }

  lemma NoteHolds(s: Snapshot, records: seq<Usage>, n: nat)
    requires n < |records| && Holds(s, records[..n]) && Legal(records[n])
    requires !Overflows(if IsPaused(records[n]) then s.paused else s.active, records[n])
    ensures Holds(Note(s, records[n]), records[..n + 1])
  {
    var u := records[n];
    assert records[..n + 1][..n] == records[..n];
    OverflowIsExact(if IsPaused(u) then s.paused else s.active, u);
    PlusIsExact(if IsPaused(u) then s.paused else s.active, u);
    CountOn(records, n, {Creating});
    CountOn(records, n, {Ready, Suspended});
    CountOn(records, n, {Paused});
  }

  /** A snapshot is made exactly when every record is legal and the exact totals fit the counters; it
      then holds the exact totals, without any wrap-around, the counts, and all ids in order. */
  method ResourceSnapshot(records: seq<Usage>) returns (r: Option<Snapshot>, ids: seq<Id>)
    ensures r.Some? <==> AllLegal(records) && Fits(Exact(records, true)) && Fits(Exact(records, false))
    ensures r.Some? ==> Holds(r.value, records)
    ensures r.Some? ==> SortedIds(ids) && multiset(ids) == multiset(Ids(records))
  {
    var s := Snapshot(Totals(0, 0), Totals(0, 0), 0, 0, 0);
    ids := [];
    for i := 0 to |records|
      invariant AllLegal(records[..i]) && Holds(s, records[..i])
      invariant SortedIds(ids) && multiset(ids) == multiset(Ids(records[..i]))
    {
      var u := records[i];
      if u.id == "" || u.cpus < 0 || u.ramMB < 0 { return None, []; }
      assert Ids(records[..i + 1]) == Ids(records[..i]) + [u.id];
      ids := InsertId(ids, u.id);
      var sofar := if IsPaused(u) then s.paused else s.active;
      if Overflows(sofar, u) {
        DoesNotFit(records, i, sofar);
        return None, [];
      }
      if u.state.Invalid? { return None, []; }
      NoteHolds(s, records, i);
      s := Note(s, u);
    }
    assert records[..|records|] == records;
    r := Some(s);
  }

  lemma DoesNotFit(records: seq<Usage>, n: nat, sofar: Totals)
    requires n < |records| && records[n].cpus >= 0 && records[n].ramMB >= 0
    requires sofar == Exact(records[..n], IsPaused(records[n])) && Fits(sofar) && Overflows(sofar, records[n])
    ensures !(AllLegal(records) && Fits(Exact(records, IsPaused(records[n]))))
  {
    OverflowIsExact(sofar, records[n]);
    assert records[..n + 1][..n] == records[..n];
    var paused := IsPaused(records[n]);
    if AllLegal(records) && Fits(Exact(records, paused)) { PrefixFits(records, n + 1, paused); }
  }
}
