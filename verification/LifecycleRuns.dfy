/** What the per-operation contracts add up to over sequences of operations and over the node. */
module LifecycleRuns {
  import opened Domain
  import opened RouteRegistry
  import opened World
  import opened Runs
  import opened Lifecycle
  import opened Outcomes
  import opened Manager

  /** The views of one sandbox between successive operations. */
  ghost predicate History(vs: seq<View>) {
    forall i, j :: 0 <= i < |vs| && j == i + 1 && j < |vs| ==> VerdictStands(vs[i], vs[j])
  }

  lemma {:induction false} VerdictOutlives(vs: seq<View>, i: nat, k: nat)
    requires History(vs) && i <= k < |vs| && Doomed(vs[i])
    requires forall j :: i <= j <= k ==> vs[j].rec.Some?
    ensures Doomed(vs[k])
  {
    if k > i {
      VerdictOutlives(vs, i, k - 1);
      assert VerdictStands(vs[k - 1], vs[k]);
    }
  }

  /** A deletion verdict is final: as long as the record has not been deleted, it is not READY,
      SUSPENDED, PAUSED or resumable again. */
  ghost predicate VerdictIsFinal(vs: seq<View>) {
    forall i, k :: 0 <= i <= k < |vs| && Doomed(vs[i]) && (forall j :: i <= j <= k ==> vs[j].rec.Some?)
      ==> Doomed(vs[k]) && !Running(vs[k].rec.value.state) && !Resumable(vs[k].rec.value)
  }

  /** Whether the operation is taken up, and exposes a guest frozen by a capture. */
  ghost predicate ExposedBy(op: Operation, v: View) { Admissible(op, v) && ExposesFrozen(op, v) }

  /** `u` is what the operation makes of `v`; the manager is never asked for an inadmissible one. */
  ghost predicate Follows(op: Operation, v: View, u: View) {
    (v.entry.Some? ==> v.rec.Some?) && if Admissible(op, v) then Effect(op, v, u) else u == v
  }

  /** Any sequence of operations on one sandbox, each under any failures; `vs` are the views between
      them. The sandbox is at rest after each, a deletion verdict is final, no running record outlives
      the cap its requests kept to, and a frozen guest was exposed exactly if some operation did so. */
  method Serve(m: Locked, ops: seq<Operation>) returns (vs: seq<View>)
    requires m.Valid() && Rest(m.V())
    modifies m
    ensures m.Valid() && m.start == old(m.start)
    ensures |vs| == |ops| + 1 && vs[0] == old(m.V()) && vs[|ops|] == m.V()
    ensures forall i :: 0 <= i < |vs| ==> Rest(vs[i])
    ensures forall i :: 0 <= i < |ops| ==> Follows(ops[i], vs[i], vs[i + 1])
    ensures VerdictIsFinal(vs)
    ensures forall cap :: WithinLifetime(old(m.V()), cap) && AllCapped(ops, cap) ==> WithinLifetime(m.V(), cap)
    ensures m.everExposed <==> old(m.everExposed) || exists i :: 0 <= i < |ops| && ExposedBy(ops[i], vs[i])
  {
    vs := [m.V()];
    for n := 0 to |ops|
      invariant m.Valid() && m.start == old(m.start)
      invariant |vs| == n + 1 && vs[0] == old(m.V()) && vs[n] == m.V()
      invariant Chronicle(ops[..n], vs)
      invariant forall cap :: WithinLifetime(old(m.V()), cap) && AllCapped(ops, cap) ==> WithinLifetime(m.V(), cap)
      invariant m.everExposed <==> old(m.everExposed) || exists i :: 0 <= i < n && ExposedBy(ops[i], vs[i])
    {
      ServeOne(m, ops[n]);
      ChronicleGrows(ops[..n], vs, ops[n], m.V());
      assert ops[..n + 1] == ops[..n] + [ops[n]];
      vs := vs + [m.V()];
    }
    assert ops[..|ops|] == ops;
    HistoryIsFinal(vs);
  }

  ghost predicate Chronicle(ops: seq<Operation>, vs: seq<View>) {
    && |vs| == |ops| + 1 && History(vs) && (forall i :: 0 <= i < |vs| ==> Rest(vs[i]))
    && forall i :: 0 <= i < |ops| ==> Follows(ops[i], vs[i], vs[i + 1])
  }

  lemma ChronicleGrows(ops: seq<Operation>, vs: seq<View>, op: Operation, u: View)
    requires Chronicle(ops, vs) && Rest(u) && Follows(op, vs[|ops|], u) && VerdictStands(vs[|ops|], u)
    ensures Chronicle(ops + [op], vs + [u])
  {
  }

  /** One operation; an inadmissible one is not taken up. */
  method ServeOne(m: Locked, op: Operation)
    requires m.Valid() && Rest(m.V())
    modifies m
    ensures m.Valid() && m.start == old(m.start) && Rest(m.V())
    ensures Follows(op, old(m.V()), m.V()) && VerdictStands(old(m.V()), m.V())
    ensures forall cap :: WithinLifetime(old(m.V()), cap) && Capped(op, cap) ==> WithinLifetime(m.V(), cap)
    ensures m.everExposed <==> old(m.everExposed) || ExposedBy(op, old(m.V()))
  {
    if Admissible(op, m.V()) { m.Perform(op); }
  }

  lemma HistoryIsFinal(vs: seq<View>)
    requires History(vs)
    ensures VerdictIsFinal(vs)
  {
    forall i, k | 0 <= i <= k < |vs| && Doomed(vs[i]) && (forall j :: i <= j <= k ==> vs[j].rec.Some?)
      ensures Doomed(vs[k]) && !Running(vs[k].rec.value.state) && !Resumable(vs[k].rec.value)
    {
      VerdictOutlives(vs, i, k);
    }
  }

  ghost predicate AllCapped(ops: seq<Operation>, cap: int) { forall i :: 0 <= i < |ops| ==> Capped(ops[i], cap) }

  /** The start of the run that a listing shows for a record (runStartedAt). */
  function RunStartedAt(r: Record): int {
    if (r.state == Paused || StrandedResume(r)) && r.headStartedAt > 0 then r.headStartedAt else r.startedAt
  }

  /** A sandbox that is paused between two pages keeps its place in the list, however the pause ends
      once the VMM has stopped. */
  lemma PauseKeepsPlace(v: View, u: View, expiredBefore: Option<int>, f: PauseFaults)
    requires Rest(v) && PauseEffect(v, u, expiredBefore, f) && StopReached(v, expiredBefore, f) && f.stop.Stopped?
    requires v.rec.value.startedAt > 0 && f.begin.digest !in {"", v.rec.value.source, v.rec.value.head}
    ensures u.rec.Some? && RunStartedAt(u.rec.value) == RunStartedAt(v.rec.value)
  {
  }

  /** One serialized resume or wake: some request and fault record for which the contract holds. */
  ghost predicate ResumeCall(v: View, u: View, booted: bool) {
    exists r, timeout, f :: Resumed(v, u, r, booted, timeout, f)
  }

  /** Resumes and wakes of one paused sandbox, in the order they got the lock. */
  ghost predicate ResumeCalls(vs: seq<View>, boots: seq<bool>) {
    |vs| == |boots| + 1 && forall k :: 0 <= k < |boots| ==> ResumeCall(vs[k], vs[k + 1], boots[k])
  }

  /** Once a resume has booted the sandbox, every later one joins it and changes nothing, the
      winner's deadline included. */
  lemma {:induction false} LosersJoin(vs: seq<View>, boots: seq<bool>, i: nat, j: nat)
    requires ResumeCalls(vs, boots) && i < j <= |boots| && boots[i]
    ensures vs[j] == vs[i + 1] && (j < |boots| ==> !boots[j])
    ensures vs[j].rec.Some? && vs[j].rec.value.state == Ready && vs[j].rec.value.e2b
  {
    assert ResumeCall(vs[i], vs[i + 1], boots[i]);
    if j > i + 1 {
      LosersJoin(vs, boots, i, j - 1);
      assert ResumeCall(vs[j - 1], vs[j - 1 + 1], boots[j - 1]);
    }
    if j < |boots| { assert ResumeCall(vs[j], vs[j + 1], boots[j]); }
  }

  /** Among serialized resumes and wakes of one sandbox at most one boots. */
  lemma AtMostOneBoots(vs: seq<View>, boots: seq<bool>, i: nat, j: nat)
    requires ResumeCalls(vs, boots) && i < |boots| && j < |boots| && boots[i] && boots[j]
    ensures i == j
  {
    if i < j { LosersJoin(vs, boots, i, j); }
    if j < i { LosersJoin(vs, boots, j, i); }
  }

  /** The ownership invariant of the node in any state where every lock is free. */
  ghost predicate Ownership(w: World) {
    && (forall id :: id in w.entries ==> id in w.store && (w.store[id].e2b ==> id in w.reservations))
    && (forall id :: id in w.reservations ==> id in w.store && w.store[id].e2b)
    && w.used == Alloc(Sum(w.reservations, Cpus), Sum(w.reservations, MemoryMB))
    && w.usedRAM == Sum(w.entries, EntryRam)
  }

  lemma {:induction false} NothingPending(pending: map<Id, nat>)
    requires forall id :: id in pending ==> pending[id] == 0
    ensures Sum(pending, PendingRam) == 0
    decreases pending
  {
    if pending != map[] {
      var k :| k in pending && Sum(pending, PendingRam) == PendingRam(pending[k]) + Sum(pending - {k}, PendingRam);
      NothingPending(pending - {k});
    }
  }

  lemma RestIsOwnership(w: World)
    requires Inv(w) && forall id :: Rest(ViewOf(w, id))
    ensures Ownership(w)
  {
    forall id | id in w.pending ensures w.pending[id] == 0 { assert Rest(ViewOf(w, id)); }
    NothingPending(w.pending);
    forall id | id in w.entries ensures id in w.store && (w.store[id].e2b ==> id in w.reservations) {
      assert Rest(ViewOf(w, id));
    }
    forall id | id in w.reservations ensures id in w.store && w.store[id].e2b { assert Rest(ViewOf(w, id)); }
  }

  /** A node that has just started with an empty store. */
  function Start(limits: Limits): World {
    World(limits, map[], map[], map[], Alloc(0, 0), 0, map[], EMPTY, {}, map[], MIN_CID, {}, map[], 0, 0)
  }

  lemma StartIsSafe(limits: Limits)
    ensures Inv(Start(limits)) && forall id :: Rest(ViewOf(Start(limits), id))
  {
  }

  /** What was done under each lock is the log of an object of class Locked that has come to rest;
      nothing was done under the others. */
  ghost predicate Served(w: World, steps: seq<Step>, ms: map<Id, Locked>, id: Id)
    reads ms.Values
  {
    if id in ms
    then ms[id].Valid() && ms[id].start == ViewOf(w, id) && ms[id].log == Own(steps, id) && Rest(ms[id].V())
    else Own(steps, id) == Nil && Rest(ViewOf(w, id))
  }

  /** In any interleaving of operations on any sandboxes, under any failures, and whenever the registry
      closes: when every operation is done, the node satisfies its invariant and the ownership
      invariant. The operations are those of class Locked, which Perform and Serve bring to rest. */
  lemma OwnershipInEveryInterleaving(w: World, steps: seq<Step>, ms: map<Id, Locked>)
    requires Inv(w) && ServicesKeepContracts(w, steps) && forall id :: Served(w, steps, ms, id)
    ensures Exec(w, steps).Some? && Inv(Exec(w, steps).value) && Ownership(Exec(w, steps).value)
  {
    forall id ensures LocalExec(ViewOf(w, id), Own(steps, id)).Some? { assert Served(w, steps, ms, id); }
    InterleavingsKeepInv(w, steps, |steps|);
    assert steps[..|steps|] == steps;
    LockedOperationsInterleave(w, steps);
    var z := Exec(w, steps).value;
    forall id ensures Rest(ViewOf(z, id)) {
      assert Served(w, steps, ms, id) && IsReplay(w, z, steps, id);
      CutRests(LocalExec(ViewOf(w, id), Own(steps, id)).value, z.routes.closed);
    }
    RestIsOwnership(z);
  }

  /** A sandbox at rest stays so when the registry drops its slot. */
  lemma CutRests(v: View, closed: bool)
    requires Rest(v)
    ensures Rest(Cut(v, closed))
  {
  }

  // ---------------------------------------------------------------------------------------------
  // Retrying a failed resume
  // ---------------------------------------------------------------------------------------------

  /** A record left CREATING with an entry. */
  predicate Blocked(v: View) { v.rec.Some? && v.rec.value.state == Creating && v.entry.Some? }

  /** No external call fails. */
  predicate Faultless(f: ResumeFaults) {
    && !f.get && !f.leaseDelete && SmoothCleanup(f.cleanup)
    && !f.create.invalid && !f.create.capacityDenied && !f.create.registryClosed && !f.create.creatingWrite
    && !f.create.leaseCreate && !f.create.cidDenied && !f.create.boot && !f.create.ramDenied
    && f.create.launch.Launched?
    && !f.create.envd && !f.create.diedInBootstrap && !f.create.publishRefused && !f.create.readyWrite
  }

  predicate SmoothCleanup(f: CleanupFaults) {
    !f.ctxDone && !f.ctxDoneLate && !f.volumes && !f.boot && f.stop.Stopped? && !f.sockets && f.pool.SlotReturned?
  }

  /** A resumable sandbox comes back when nothing fails, unless its record is CREATING and an entry is
      left: then no resume at all boots it. */
  lemma ResumeBootsUnlessBlocked(v: View, f: ResumeFaults)
    requires Rest(v) && v.rec.Some? && v.rec.value.e2b && Resumable(v.rec.value)
    ensures Blocked(v) ==> !Revives(v, f)
    ensures Faultless(f) && v.rec.value.cpus > 0 && v.rec.value.ramMB > 0 ==> (Revives(v, f) <==> !Blocked(v))
  {
  }

  /** What a failed resume of a sandbox without an entry leaves. */
  lemma FailedResumeLeaves(v: View, u: View, timeout: int, f: ResumeFaults)
    requires Rest(v) && v.rec.Some? && v.rec.value.e2b && Resumable(v.rec.value) && v.entry.None? && timeout > 0
    requires ResumeEffect(v, u, timeout, false, f) && (f.get || !Revives(v, f))
    ensures u.rec.Some? && u.rec.value.cpus == v.rec.value.cpus
    ensures u.rec.value.ramMB == v.rec.value.ramMB || u.rec.value.ramMB == f.create.bootRam
    ensures u.entry.Some? ==> u.rec.value.state == if f.create.final.unknownWrite then Creating else Unknown
  {
  }

  /** After a failed resume, a retry in which nothing fails boots the sandbox if and only if the first
      attempt left no entry or could write the UNKNOWN record. `mid` is the view in between. */
  method RetryResume(m: Locked, timeout: int, f: ResumeFaults, again: ResumeFaults)
      returns (first: bool, second: bool, mid: View)
    requires m.Valid() && Rest(m.V()) && m.rec.Some? && m.rec.value.e2b && Resumable(m.rec.value) && m.entry.None?
    requires timeout > 0 && Faultless(again)
    requires f.create.ip != "" && f.create.expiryClock <= f.create.startClock
    requires again.create.ip != "" && again.create.expiryClock <= again.create.startClock
    modifies m
    ensures !first && old(m.rec).value.cpus > 0 && old(m.rec).value.ramMB > 0 && f.create.bootRam > 0
            ==> (second <==> mid.entry.None? || !f.create.final.unknownWrite)
  {
    var _, b := m.ResumePaused(timeout, f);
    first, mid := b, m.V();
    if !first {
      FailedResumeLeaves(old(m.V()), mid, timeout, f);
      ResumeBootsUnlessBlocked(mid, again);
    }
    var _, c := m.ResumePaused(timeout, again);
    second := c;
  }

  // ---------------------------------------------------------------------------------------------
  // Claims that fail
  // ---------------------------------------------------------------------------------------------

  /** A sandbox that runs from its template. */
  function Example(): View {
    View(Some(Record(Ready, true, "template", "template", "10.0.0.2", 7, 1, 512, "", false, 100, 1, 0, 0)),
         Some(Entry(Ready, 1, Some(Process(7, false, Thawed)), Some("10.0.0.2"), 512, false)),
         Some(Alloc(1, 512)), Some(RouteSlot("10.0.0.2", 1)), Some(3), 0, false)
  }

  const NO_CAPTURE_FAULTS := CaptureFaults(false, false, false, false)
  const NO_CHECKPOINT_FAULTS := CheckpointFaults(
    false, false, NO_CAPTURE_FAULTS, false, false, false, "capture", false, false, false, false, false, false, 2, 0)

  /** That a guest frozen by a capture is never published is false over two calls: after a checkpoint
      whose thaw and undo both fail, a second checkpoint, refused because the sandbox is UNKNOWN, still
      republishes the route. Perform says exactly when this happens. */
  method FrozenGuestBecomesReachable() returns (reachable: bool)
    ensures reachable
  {
    var m := new Locked(Example());
    var thawFails := NO_CHECKPOINT_FAULTS.(capture := NO_CAPTURE_FAULTS.(resume := true), undoResume := true);
    var _ := m.Checkpoint(thawFails);
    var second := m.Checkpoint(NO_CHECKPOINT_FAULTS);
    reachable := second.Err? && !Hidden(m.V()) && FrozenByCapture(m.V());
  }

  /** That a pause which stopped the VMM leaves a resumable record is false when Stop also reports an
      error: the first capture of a sandbox is dropped, its record stays on the template and its guest
      is gone. Pause says exactly when this happens. */
  method FirstCaptureIsLost(cleanup: CleanupFaults) returns (lost: bool)
    ensures lost
  {
    var m := new Locked(Example());
    var f := PauseFaults(
      NO_CHECKPOINT_FAULTS, false, StopFailed(true), false, false, false, false, false, cleanup, false, false, 0);
    var _, stop := m.Pause(None, f);
    lost := stop == Some(StopFailed(true)) && m.rec.Some? && !Resumable(m.rec.value)
            && m.entry.Some? && m.entry.value.process.Some? && m.entry.value.process.value.exited;
  }

  const NO_CLEANUP_FAULTS := CleanupFaults(false, Stopped, false, SlotReturned, false, false, false)
  const NO_CREATE_FAULTS := CreateFaults(
    false, false, false, false, false, false, false, false, false, Launched, false, false, false, false,
    NO_CLEANUP_FAULTS, false, FinalFaults(false, false), true, 512, 2, 3, 4, 8, "10.0.0.3", 9, 0, 0)

  /** That a paused sandbox can always be resumed again is false: a resume that fails, cannot clean up
      and cannot write the UNKNOWN record leaves a CREATING record with an entry, and a second resume
      in which nothing fails is refused. */
  method ResumeGetsStuck() returns (stuck: bool)
    ensures stuck
  {
    var paused := View(Some(Record(Paused, true, "template", "capture", "", 0, 1, 512, "", false, 0, 1, 1, 2)),
                       None, None, None, None, 0, false);
    var m := new Locked(paused);
    var broken := NO_CREATE_FAULTS.(cidDenied := true, cleanup := NO_CLEANUP_FAULTS.(ctxDone := true),
                                    final := FinalFaults(false, true));
    var _, first := m.ResumePaused(60, ResumeFaults(false, NO_CLEANUP_FAULTS, false, broken));
    var second, booted := m.ResumePaused(60, ResumeFaults(false, NO_CLEANUP_FAULTS, false, NO_CREATE_FAULTS));
    stuck := !first && second.Err? && !booted;
  }
}
