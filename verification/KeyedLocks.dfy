/** The two reference-counted keyed locks: the lifecycle locks (internal/sandbox/lifecycle.go), which
    check the identity of the lock object before deleting its key, and the unpack locks
    (internal/image/unpack.go), which do not, but let a waiter give up. One machine has both
    features, so what holds of it holds of each. */
module KeyedLocks {
  import opened Domain

  type Key = string
  type Thread = nat

  /** Where a thread stands between asking for a key and having given it back. */
  datatype Pc = Idle | Waiting(key: Key, lock: nat) | Holding(key: Key, lock: nat) | Releasing(key: Key, lock: nat)

  /** `table` is the map under the outer mutex, `refs` the count in each lock object, `held` the
      inner mutexes (or token channels) in use, and `next` the next new lock object. */
  datatype Locks = Locks(table: map<Key, nat>, refs: map<nat, int>, held: map<nat, Thread>, pcs: map<Thread, Pc>,
      next: nat)

  datatype Step =
    | Arrive(t: Thread, key: Key)      // outer mutex: find or create the lock, count one more
    | Acquire(t: Thread)               // the inner mutex or the token
    | GiveUp(t: Thread)                // the waiter's context is done
    | Unlock(t: Thread)                // the inner mutex or the token goes back
    | Leave(t: Thread, check: bool)    // outer mutex: count one less, delete the key at zero

  const EMPTY := Locks(map[], map[], map[], map[], 0)

  function PcOf(s: Locks, t: Thread): Pc { if t in s.pcs then s.pcs[t] else Idle }

  predicate CanStep(s: Locks, e: Step) {
    match e
    case Arrive(t, _) => PcOf(s, t).Idle?
    case Acquire(t) => PcOf(s, t).Waiting? && PcOf(s, t).lock !in s.held
    case GiveUp(t) => PcOf(s, t).Waiting?
    case Unlock(t) => PcOf(s, t).Holding?
    case Leave(t, _) => PcOf(s, t).Releasing? && PcOf(s, t).lock in s.refs
  }

  function After(s: Locks, e: Step): Locks
    requires CanStep(s, e)
  {
    match e
    case Arrive(t, k) =>
      if k in s.table
      then var l := s.table[k];
           s.(refs := s.refs[l := (if l in s.refs then s.refs[l] else 0) + 1], pcs := s.pcs[t := Waiting(k, l)])
      else s.(table := s.table[k := s.next], refs := s.refs[s.next := 1], pcs := s.pcs[t := Waiting(k, s.next)],
          next := s.next + 1)
    case Acquire(t) => s.(held := s.held[PcOf(s, t).lock := t],
        pcs := s.pcs[t := Holding(PcOf(s, t).key, PcOf(s, t).lock)])
    case GiveUp(t) => s.(pcs := s.pcs[t := Releasing(PcOf(s, t).key, PcOf(s, t).lock)])
    case Unlock(t) => s.(held := s.held - {PcOf(s, t).lock},
        pcs := s.pcs[t := Releasing(PcOf(s, t).key, PcOf(s, t).lock)])
    case Leave(t, check) =>
      var k, l := PcOf(s, t).key, PcOf(s, t).lock;
      var count := s.refs[l] - 1;
      var last := count == 0 && (check ==> k in s.table && s.table[k] == l);
      s.(table := if last then s.table - {k} else s.table, refs := s.refs[l := count], pcs := s.pcs[t := Idle])
  }

  /** The threads that are using a lock object. */
  ghost function Users(s: Locks, l: nat): set<Thread> {
    set t | t in s.pcs && !s.pcs[t].Idle? && s.pcs[t].lock == l
  }

  /** A thread between Arrive and Leave uses the one lock object its key maps to. */
  ghost predicate Shares(s: Locks, t: Thread) {
    PcOf(s, t).Idle? || (PcOf(s, t).key in s.table && s.table[PcOf(s, t).key] == PcOf(s, t).lock)
  }

  /** A key in the map has a lock object of its own, whose count is the number of its users and is
      not zero. */
  ghost predicate Counted(s: Locks, k: Key) {
    k in s.table ==> s.table[k] < s.next && s.table[k] in s.refs
                     && s.refs[s.table[k]] == |Users(s, s.table[k])| && Users(s, s.table[k]) != {}
  }

  ghost predicate Inv(s: Locks) {
    && (forall t :: Shares(s, t))
    && (forall k :: Counted(s, k))
    && (forall i, j :: i in s.table && j in s.table && s.table[i] == s.table[j] ==> i == j)
    && (forall t :: PcOf(s, t).Holding? ==> PcOf(s, t).lock in s.held && s.held[PcOf(s, t).lock] == t)
    && (forall l :: l in s.held ==> PcOf(s, s.held[l]).Holding? && PcOf(s, s.held[l]).lock == l)
  }

  lemma UsersAfter(s: Locks, e: Step, l: nat)
    requires Inv(s) && CanStep(s, e)
    ensures var z := After(s, e);
            match e
            case Arrive(t, k) => Users(z, l) == if l == z.pcs[t].lock then Users(s, l) + {t} else Users(s, l)
            case Leave(t, _) => Users(z, l) == Users(s, l) - {t}
            case _ => Users(z, l) == Users(s, l)
  {
  }

  /** Nobody uses a lock object that was never in the map. */
  lemma FreshUnused(s: Locks, l: nat)
    requires Inv(s) && l >= s.next
    ensures Users(s, l) == {}
  {
    forall t ensures t !in Users(s, l) {
      assert Shares(s, t);
      if !PcOf(s, t).Idle? { assert Counted(s, PcOf(s, t).key); }
    }
  }

  lemma KeepsCounted(s: Locks, e: Step, k: Key)
    requires Inv(s) && CanStep(s, e)
    ensures Counted(After(s, e), k)
  {
    var z := After(s, e);
    if k in z.table {
      var l := z.table[k];
      UsersAfter(s, e, l);
      assert Counted(s, k);
      match e
      case Arrive(t, key) =>
        if key !in s.table { FreshUnused(s, s.next); }
        assert t !in Users(s, l);
      case Leave(t, _) =>
        assert Shares(s, t);
        if PcOf(s, t).lock == l {
          assert t in Users(s, l) && |Users(s, l) - {t}| == |Users(s, l)| - 1;
        } else {
          assert t !in Users(s, l);
        }
      case _ =>
    }
  }

  lemma KeepsShares(s: Locks, e: Step, u: Thread)
    requires Inv(s) && CanStep(s, e)
    ensures Shares(After(s, e), u)
  {
    assert Shares(s, u) && Shares(s, e.t);
    if e.Leave? && !PcOf(After(s, e), u).Idle? {
      var l := PcOf(s, e.t).lock;
      assert Counted(s, PcOf(s, e.t).key);
      if PcOf(s, u).lock == l {
        assert {u, e.t} <= Users(s, l);
        CardinalityMonotone({u, e.t}, Users(s, l));
      }
    }
  }

  lemma CardinalityMonotone(a: set<Thread>, b: set<Thread>)
    requires a <= b
    ensures |a| <= |b|
  {
    assert b == a + (b - a);
  }

  lemma StepKeepsInv(s: Locks, e: Step)
    requires Inv(s) && CanStep(s, e)
    ensures Inv(After(s, e))
  {
    var z := After(s, e);
    forall u ensures Shares(z, u) { KeepsShares(s, e, u); }
    forall k ensures Counted(z, k) { KeepsCounted(s, e, k); }
    KeepsHolders(s, e);
    assert forall k :: k in s.table ==> Counted(s, k);
  }

  lemma KeepsHolders(s: Locks, e: Step)
    requires Inv(s) && CanStep(s, e)
    ensures var z := After(s, e);
            && (forall t :: PcOf(z, t).Holding? ==> PcOf(z, t).lock in z.held && z.held[PcOf(z, t).lock] == t)
            && (forall l :: l in z.held ==> PcOf(z, z.held[l]).Holding? && PcOf(z, z.held[l]).lock == l)
  {
    var z := After(s, e);
    forall t | PcOf(z, t).Holding? ensures PcOf(z, t).lock in z.held && z.held[PcOf(z, t).lock] == t {
      if t != e.t {
        assert PcOf(z, t) == PcOf(s, t);
        assert PcOf(s, e.t).Holding? ==> s.held[PcOf(s, e.t).lock] == e.t;
      }
    }
    forall l | l in z.held ensures PcOf(z, z.held[l]).Holding? && PcOf(z, z.held[l]).lock == l {
      if l in s.held { assert PcOf(s, s.held[l]).Holding?; }
    }
  }

  ghost function Exec(s: Locks, steps: seq<Step>): Option<Locks>
    decreases |steps|
  {
    if steps == [] then Some(s)
    else if CanStep(s, steps[0]) then Exec(After(s, steps[0]), steps[1..]) else None
  }

  lemma {:induction false} RunKeepsInv(s: Locks, steps: seq<Step>)
    requires Inv(s) && Exec(s, steps).Some?
    ensures Inv(Exec(s, steps).value)
    decreases |steps|
  {
    if steps != [] {
      StepKeepsInv(s, steps[0]);
      RunKeepsInv(After(s, steps[0]), steps[1..]);
    }
  }

  /** Mutual exclusion: in every state of every interleaving, at most one thread holds a key. */
  lemma MutualExclusion(steps: seq<Step>, t: Thread, u: Thread)
    requires Exec(EMPTY, steps).Some?
    requires PcOf(Exec(EMPTY, steps).value, t).Holding? && PcOf(Exec(EMPTY, steps).value, u).Holding?
    requires PcOf(Exec(EMPTY, steps).value, t).key == PcOf(Exec(EMPTY, steps).value, u).key
    ensures t == u
  {
    RunKeepsInv(EMPTY, steps);
    var s := Exec(EMPTY, steps).value;
    assert Shares(s, t) && Shares(s, u);
  }

  /** A key is in the map exactly while some thread is between asking for it and having left it, and
      all such threads share one lock object. */
  lemma KeyPresentWhileUsed(steps: seq<Step>, k: Key)
    requires Exec(EMPTY, steps).Some?
    ensures var s := Exec(EMPTY, steps).value;
            && (k in s.table <==> exists t :: !PcOf(s, t).Idle? && PcOf(s, t).key == k)
            && (forall t :: !PcOf(s, t).Idle? && PcOf(s, t).key == k ==> k in s.table && PcOf(s, t).lock == s.table[k])
  {
    RunKeepsInv(EMPTY, steps);
    var s := Exec(EMPTY, steps).value;
    forall t | !PcOf(s, t).Idle? && PcOf(s, t).key == k ensures k in s.table && PcOf(s, t).lock == s.table[k] {
      assert Shares(s, t);
    }
    if k in s.table {
      assert Counted(s, k);
      var t :| t in Users(s, s.table[k]);
      assert Shares(s, t);
      assert !PcOf(s, t).Idle? && PcOf(s, t).key == k;
    }
  }

  /** The identity check of the lifecycle locks never decides anything: the two variants are the same
      lock in every reachable state. */
  lemma IdentityCheckRedundant(steps: seq<Step>, t: Thread)
    requires Exec(EMPTY, steps).Some? && CanStep(Exec(EMPTY, steps).value, Leave(t, true))
    ensures After(Exec(EMPTY, steps).value, Leave(t, true)) == After(Exec(EMPTY, steps).value, Leave(t, false))
  {
    RunKeepsInv(EMPTY, steps);
    assert Shares(Exec(EMPTY, steps).value, t);
  }

  /** A released key can always be taken: a waiter blocks only while another thread holds its key. */
  lemma WaiterBlocksOnlyOnHolder(steps: seq<Step>, t: Thread)
    requires Exec(EMPTY, steps).Some? && PcOf(Exec(EMPTY, steps).value, t).Waiting?
    ensures var s := Exec(EMPTY, steps).value;
            CanStep(s, Acquire(t)) || exists u :: u != t && PcOf(s, u).Holding? && PcOf(s, u).key == PcOf(s, t).key
  {
    RunKeepsInv(EMPTY, steps);
    var s := Exec(EMPTY, steps).value;
    var l := PcOf(s, t).lock;
    if l in s.held {
      var u := s.held[l];
      assert Shares(s, t) && Shares(s, u);
      assert PcOf(s, u).Holding? && PcOf(s, u).key == PcOf(s, t).key;
    }
  }
}
