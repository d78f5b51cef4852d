/** The sandbox manager (internal/sandbox): every operation runs under the lifecycle lock of one
    sandbox id. An object of class `Locked` is what the holder of that lock owns: the id's key of
    each of the manager's maps. Operations change it only through atomic actions, and each external
    call that can fail takes its verdict from the operation's fault record, so a contract that holds
    for all fault records holds under every failure. */
module Manager {
  import opened Domain
  import opened RouteRegistry
  import opened World
  import opened Lifecycle
  import opened Outcomes

  class Locked {
    var rec: Option<Record>          // store
    var entry: Option<Entry>         // sandboxes
    var resv: Option<Alloc>          // capacity ledger
    var route: Option<RouteSlot>     // route registry
    var cid: Option<nat>             // CID allocator
    var pending: nat                 // RAM between the counter and the entry
    var lease: bool                  // create lease

    /** The Boot Index that the last guest was laid out from. */
    var image: Option<Digest>

    /** Where this object started and the actions taken since: its part of the node's run. */
    ghost var start: View
    ghost var log: Trail
    /** Whether some state so far exposed a guest frozen by a capture. */
    ghost var everExposed: bool

    function V(): View reads this { View(rec, entry, resv, route, cid, pending, lease) }

    ghost predicate Valid() reads this {
      LocalExec(start, log) == Some(V()) && (Exposed(V()) ==> everExposed)
    }

    constructor (v: View)
      ensures Valid() && V() == v && start == v && log == Nil && everExposed == Exposed(v)
    {
      rec, entry, resv, route, cid, pending, lease := v.rec, v.entry, v.resv, v.route, v.cid, v.pending, v.lease;
      start, log, everExposed, image := v, Nil, Exposed(v), None;
    }

    /** Writes back the view an action leads to. */
    method Commit(a: Action, u: View)
      requires LocalExec(start, Snoc(log, a)) == Some(u)
      modifies this
      ensures Valid() && start == old(start) && log == Snoc(old(log), a) && V() == u
      ensures everExposed == (old(everExposed) || Exposed(u))
      ensures image == old(image)
    {
      rec, entry, resv, route, cid, pending, lease := u.rec, u.entry, u.resv, u.route, u.cid, u.pending, u.lease;
      log, everExposed := Snoc(log, a), everExposed || Exposed(u);
    }

    /** One atomic action. */
    method Act(a: Action)
      requires Valid() && LocalOk(V(), a)
      modifies this
      ensures Valid() && start == old(start)
      ensures V() == ApplyLocal(old(V()), a)
      ensures everExposed == (old(everExposed) || Exposed(V()))
      ensures image == old(image)
    {
      Commit(a, ApplyLocal(V(), a));
    }

    // -------------------------------------------------------------------------------------------
    // Store, routes, RAM
    // -------------------------------------------------------------------------------------------

    /** store.Update: a failing write changes nothing, and a missing record cannot be updated. */
    method SaveRecord(r: Record, fails: bool) returns (ok: bool)
      requires Valid()
      modifies this
      ensures Valid() && start == old(start) && everExposed == old(everExposed)
      ensures ok == (!fails && old(rec).Some?)
      ensures V() == if ok then old(V()).(rec := Some(r)) else old(V())
      ensures image == old(image)
    {
      ok := !fails && rec.Some?;
      if ok { Act(PutRecord(r)); }
    }

    /** store.Delete succeeds on a missing record. */
    method DeleteRecord(fails: bool) returns (ok: bool)
      requires Valid()
      modifies this
      ensures Valid() && start == old(start) && everExposed == old(everExposed)
      ensures ok == !fails
      ensures V() == if ok then old(V()).(rec := None) else old(V())
    {
      if fails { return false; }
      if rec.Some? { Act(DropRecord); }
      ok := true;
    }

    /** Drops an entry whose runtime is released. */
    method DeleteEntry()
      requires Valid()
      requires entry.Some? ==> entry.value.process.None? && entry.value.slot.None? && entry.value.ram == 0
      modifies this
      ensures Valid() && start == old(start) && everExposed == old(everExposed)
      ensures V() == old(V()).(entry := None)
    {
      if entry.Some? { Act(DropEntry); }
    }

    method ReleaseCapacity()
      requires Valid()
      modifies this
      ensures Valid() && start == old(start) && everExposed == old(everExposed)
      ensures V() == old(V()).(resv := None)
    {
      if resv.Some? { Act(Unreserve); }
    }

    method ReleaseLease(fails: bool) returns (ok: bool)
      requires Valid()
      modifies this
      ensures Valid() && start == old(start) && everExposed == old(everExposed)
      ensures ok == !fails && V() == if ok then old(V()).(lease := false) else old(V())
      ensures image == old(image)
    {
      if fails { return false; }
      Act(SetLease(false));
      ok := true;
    }

    method DropRoute()
      requires Valid()
      modifies this
      ensures Valid() && start == old(start) && everExposed == old(everExposed)
      ensures V() == old(V()).(route := None)
    {
      if route.Some? { Act(ReleaseRoute); }
    }

    /** Pulls a published route before a capture freezes the guest; the slot stays. */
    method WithdrawRoute(lifetime: nat)
      requires Valid()
      modifies this
      ensures Valid() && start == old(start) && everExposed == old(everExposed)
      ensures V() == old(V()).(route := route) && Hidden(V())
      ensures route == if Hidden(old(V())) then old(route) else Some(RouteSlot("", lifetime))
    {
      if route.Some? && route.value.ip != "" { Act(Action.WithdrawRoute(lifetime)); }
    }

    /** Republishes the record's address; a refused publication is only logged. */
    method RestoreRoute(r: Record, refused: bool)
      requires Valid()
      requires route.Some? && r.ip != "" ==> entry.Some? && entry.value.slot == Some(r.ip)
      modifies this
      ensures Valid() && start == old(start)
      ensures everExposed == (old(everExposed) || Exposed(V()))
      ensures V() == old(V()).(route := route)
      ensures route ==
              if r.ip != "" && !refused && old(route).Some?
                  && (old(route).value.ip == "" || old(route).value.ip == r.ip)
              then Some(old(route).value.(ip := r.ip)) else old(route)
    {
      if r.ip == "" || refused || route.None? { return; }
      if route.value.ip != "" && route.value.ip != r.ip { return; }
      Act(PublishRoute(r.ip));
    }

    /** releaseRAM: the booked amount leaves the entry before it leaves the counter. */
    method ReleaseRam()
      requires Valid() && entry.Some? && pending == 0 && Quiet(V())
      modifies this
      ensures Valid() && start == old(start) && everExposed == old(everExposed)
      ensures V() == old(V()).(entry := Some(old(entry).value.(ram := 0)))
    {
      if entry.value.ram != 0 {
        Act(UnbookRam);
        Act(ReturnRam);
      }
    }

    // -------------------------------------------------------------------------------------------
    // Cleanup and terminal rules
    // -------------------------------------------------------------------------------------------

    /** The process half of cleanupSandbox: RAM comes back once the exit is confirmed, even when
        Stop reports a secondary error. */
    method StopProcess(f: CleanupFaults) returns (ok: bool)
      requires Valid() && entry.Some? && entry.value.process.Some? && pending == 0
      modifies this
      ensures Valid() && start == old(start) && everExposed == old(everExposed)
      ensures V() == old(V()).(entry := entry) && entry.Some?
      ensures ok == (f.stop.Stopped? && !f.sockets)
      ensures ok ==> entry.value == old(entry).value.(process := None, ram := 0)
      ensures !ok ==> var gone := old(entry).value.process.value.exited || f.stop != StopFailed(false);
                      entry.value == old(entry).value.(process := Some(old(entry).value.process.value.(exited := gone)),
                                                       ram := if gone then 0 else old(entry).value.ram)
    {
      if f.stop.Stopped? || f.stop.exited { Act(MarkExited); }
      if entry.value.process.value.exited { ReleaseRam(); }
      if f.stop.StopFailed? || f.sockets { return false; }
      Act(DropProcess);
      ok := true;
    }

    /** pool.Release of the held slot. */
    method ReturnSlot(f: PoolOutcome) returns (ok: bool)
      requires Valid() && entry.Some? && entry.value.slot.Some? && Hidden(V())
      modifies this
      ensures Valid() && start == old(start) && everExposed == old(everExposed)
      ensures ok == f.SlotReturned?
      ensures V() == old(V()).(entry := Some(old(entry).value.(slot :=
                match f
                case SlotReturned => None
                case SlotKept => old(entry).value.slot
                case SlotKeptWithoutIp => Some(""))))
    {
      match f
      case SlotReturned => Act(GiveSlot); ok := true;
      case SlotKept => ok := false;
      case SlotKeptWithoutIp => Act(LoseSlotIp); ok := false;
    }

    /** cleanupSandbox: the route goes before the process, the process before the slot, and a
        failure stops before releasing what depends on it. */
    method CleanupSandbox(f: CleanupFaults) returns (ok: bool)
      requires Valid() && entry.Some? && pending == 0
      modifies this
      ensures Valid() && start == old(start) && everExposed == old(everExposed)
      ensures CleanedUp(old(V()), V(), f) && ok == Cleans(old(entry).value, f)
    {
      if f.ctxDone { return false; }
      DropRoute();
      ok := ReleaseProcess(f);
      if ok { ok := ReleaseNetwork(f); }
    }

    /** The process of an entry, if it has one, and the RAM booked for it. */
    method ReleaseProcess(f: CleanupFaults) returns (ok: bool)
      requires Valid() && entry.Some? && pending == 0
      modifies this
      ensures Valid() && start == old(start) && everExposed == old(everExposed)
      ensures V() == old(V()).(entry := entry) && entry.Some?
      ensures ok == StopsProcess(old(entry).value, f)
      ensures ok ==> entry.value == old(entry).value.(process := None, ram := 0)
      ensures !ok ==> var gone := old(entry).value.process.value.exited || f.stop != StopFailed(false);
                      entry.value == old(entry).value.(process := Some(old(entry).value.process.value.(exited := gone)),
                                                       ram := if gone then 0 else old(entry).value.ram)
    {
      if entry.value.process.None? {
        ReleaseRam();
        ok := true;
      } else {
        ok := StopProcess(f);
      }
    }

    /** The slot, then volumes, boot artifacts and the context id. */
    method ReleaseNetwork(f: CleanupFaults) returns (ok: bool)
      requires Valid() && entry.Some? && entry.value.process.None? && Hidden(V())
      modifies this
      ensures Valid() && start == old(start) && everExposed == old(everExposed)
      ensures ok == (!f.ctxDoneLate && !f.volumes && !f.boot && (old(entry).value.slot.Some? ==> f.pool.SlotReturned?))
      ensures entry.Some? && V() == old(V()).(cid := if ok then None else old(cid),
                                              entry := Some(old(entry).value.(slot := entry.value.slot)))
      ensures entry.value.slot == if old(entry).value.slot.None? || f.pool.SlotReturned? then None
                                  else if f.pool.SlotKept? then old(entry).value.slot else Some("")
    {
      ok := true;
      if entry.value.slot.Some? { ok := ReturnSlot(f.pool); }
      ok := ok && !f.ctxDoneLate && !f.volumes && !f.boot;
      if ok && cid.Some? { Act(FreeCid); }
    }

    /** finalizeTerminalFailure: the released runtime no longer backs the entry or the reservation,
        so both go even when the UNKNOWN write fails too. */
    method FinalizeTerminalFailure(r: Record, deletion: bool, writeFails: bool)
      requires Valid() && rec.Some?
      requires entry.Some? ==> entry.value.process.None? && entry.value.slot.None? && entry.value.ram == 0
      modifies this
      ensures Valid() && start == old(start) && everExposed == old(everExposed)
      ensures V() == old(V()).(rec := if writeFails then old(rec) else Some(UnknownAfterRelease(r, deletion)),
                               entry := None, resv := if r.e2b then None else old(resv))
    {
      var _ := SaveRecord(UnknownAfterRelease(r, deletion), writeFails);
      DeleteEntry();
      if r.e2b { ReleaseCapacity(); }
    }

    /** finalizeReleased: a recoverable lineage is written back as PAUSED unless the verdict is
        deletion; any other record is deleted. */
    method FinalizeReleased(r: Record, deletion: bool, f: FinalFaults) returns (ok: bool)
      requires Valid() && rec.Some?
      requires entry.Some? ==> entry.value.process.None? && entry.value.slot.None? && entry.value.ram == 0
      modifies this
      ensures Valid() && start == old(start) && everExposed == old(everExposed)
      ensures ok == !f.terminalWrite
      ensures V() == old(V()).(rec := rec, entry := None, resv := if r.e2b then None else old(resv))
      ensures rec == if ok then (if !deletion && RecoverableLineage(r) then Some(PausedRecord(r)) else None)
                     else if f.unknownWrite then old(rec) else Some(UnknownAfterRelease(r, deletion))
    {
      if !deletion && RecoverableLineage(r) {
        ok := SaveRecord(PausedRecord(r), f.terminalWrite);
      } else {
        ok := DeleteRecord(f.terminalWrite);
      }
      if !ok {
        FinalizeTerminalFailure(r, deletion, f.unknownWrite);
        return;
      }
      DeleteEntry();
      if r.e2b { ReleaseCapacity(); }
    }

    // -------------------------------------------------------------------------------------------
    // Create
    // -------------------------------------------------------------------------------------------

    /** Create: reserves capacity and a route slot for E2B sandboxes, then runs the create kernel. */
    method Create(q: CreateRequest, f: CreateFaults) returns (r: Outcome)
      requires Valid() && Rest(V()) && f.ip != ""
      requires f.expiryClock <= f.startClock
      modifies this
      ensures Valid() && start == old(start) && everExposed == old(everExposed)
      ensures Rest(V()) && VerdictStands(old(V()), V())
      ensures r.Ok? <==> Creates(old(V()), q, f)
      ensures CreateEffect(old(V()), V(), q, f)
      ensures forall cap {:trigger WithinLifetime(V(), cap)} ::
                WithinLifetime(old(V()), cap) && q.timeout <= cap ==> WithinLifetime(V(), cap)
      ensures r.Ok? ==> image == Some(q.template)
    {
      var refusal := CreateRefusal(V(), q, f);
      if refusal.Some? {
        r := Err(refusal.value);
      } else {
        if q.e2b {
          var err := Prologue(q.cpus, q.ramMB, f);
          r := if err.Some? then Err(err.value) else Ok;
        } else {
          r := Ok;
        }
        if r.Ok? { r := CreateLocked(q, None, f); }
      }
      CreateLeaves(old(V()), V(), q, f);
    }

    /** The E2B prologue of create and resume: the reservation follows the record, the route slot is
        held for the whole bootstrap. */
    method Prologue(cpus: int, ramMB: int, f: CreateFaults) returns (err: Option<ErrorKind>)
      requires Valid() && entry.None? && Hidden(V())
      modifies this
      ensures Valid() && start == old(start) && everExposed == old(everExposed)
      ensures err.Some? ==> V() == old(V())
      ensures err.None? <==> Reserves(old(V()), cpus, ramMB, f)
      ensures err.None? ==> V() == old(V()).(resv := Some(Alloc(cpus, ramMB)), route := Some(RouteSlot("", f.lifetime)))
    {
      if resv.Some? { return Some(AlreadyExists); }
      if cpus <= 0 || ramMB <= 0 || f.capacityDenied { return Some(ResourceExhausted); }
      Act(Reserve(Alloc(cpus, ramMB)));
      if f.registryClosed {
        ReleaseCapacity();
        return Some(FailedPrecondition);
      }
      Act(InsertRoute(f.lifetime));
      err := None;
    }

    /** createLocked: boots a fresh sandbox from its template, or an existing record from its
        checkpoint head, and rolls everything back when a step fails. */
    method CreateLocked(q: CreateRequest, resume: Option<Record>, f: CreateFaults) returns (r: Outcome)
      requires Valid() && entry.None? && q.template != "" && f.ip != "" && f.expiryClock <= f.startClock
      requires Rest(V().(resv := if q.e2b then None else resv))
      requires q.e2b ==> resv.Some? && route.Some?
      requires resume.Some? ==> rec == resume && q.e2b && resume.value.e2b && Resumable(resume.value)
      modifies this
      ensures Valid() && start == old(start) && everExposed == old(everExposed)
      ensures Rest(V())
      ensures r.Ok? <==> Boots(q.e2b, q.volumes, resume.None? && old(rec).Some?, f)
      ensures BootEffect(old(V()), V(), q.e2b, q.volumes, q.timeout, CreatingRecord(q, resume), resume.None?
                && old(rec).Some?, f)
      ensures r.Ok? ==> image == Some(q.template)
    {
      r := BootOrUndo(q, resume, f);
      BootRests(old(V()), V(), q, resume, f);
    }

    method BootOrUndo(q: CreateRequest, resume: Option<Record>, f: CreateFaults) returns (r: Outcome)
      requires Valid() && entry.None? && cid.None? && pending == 0 && Hidden(V()) && f.ip != ""
      requires q.e2b ==> resv.Some? && route.Some?
      requires resume.Some? ==> rec == resume && q.e2b && resume.value.e2b
      modifies this
      ensures Valid() && start == old(start) && everExposed == old(everExposed)
      ensures r.Ok? <==> Boots(q.e2b, q.volumes, resume.None? && old(rec).Some?, f)
      ensures BootEffect(old(V()), V(), q.e2b, q.volumes, q.timeout, CreatingRecord(q, resume), resume.None?
                && old(rec).Some?, f)
      ensures r.Ok? ==> image == Some(q.template)
    {
      ghost var v := V();
      Act(PutEntry(f.gen));
      var ok, record, owns, leased := Boot(q, resume, f);
      if ok {
        FinishBoot(v, q, CreatingRecord(q, resume), f);
        r := Ok;
      } else {
        UndoBoot(v, q, resume, record, owns, leased, f);
        r := Err(Internal);
      }
    }

    /** The create lease of a booted sandbox goes; `v` is the view before the boot. */
    method FinishBoot(ghost v: View, q: CreateRequest, r: Record, f: CreateFaults)
      requires Valid() && Boots(q.e2b, q.volumes, false, f) && (q.e2b ==> v.route.Some?)
      requires V() == v.(rec := Some(r.(state := Ready, ip := f.ip, pid := f.pid, ramMB := f.bootRam,
                             startedAt := f.startClock,
                             expiresAt := if q.e2b then f.expiryClock + q.timeout else r.expiresAt)),
                         entry := Some(RunningEntry(q, f)), cid := Some(f.cid), lease := true,
                         route := if q.e2b then Some(v.route.value.(ip := f.ip)) else v.route)
      modifies this
      ensures Valid() && start == old(start) && everExposed == old(everExposed)
      ensures BootEffect(v, V(), q.e2b, q.volumes, q.timeout, r, false, f)
      ensures image == old(image)
    {
      var _ := ReleaseLease(f.leaseDelete);
      BootedIsEffect(v, V(), q, r, f);
    }

    /** The rollback of a failed boot; `v` is the view before it. */
    method UndoBoot(ghost v: View, q: CreateRequest, resume: Option<Record>, record: Record, owns: bool, leased: bool,
        f: CreateFaults)
      requires Valid() && v.entry.None? && v.cid.None? && v.pending == 0 && Hidden(v)
      requires resume.Some? ==> v.rec == resume && resume.value.e2b == q.e2b
      requires !Boots(q.e2b, q.volumes, resume.None? && v.rec.Some?, f)
      requires owns <==> !f.creatingWrite && (resume.None? ==> v.rec.None?)
      requires leased <==> owns && !f.leaseCreate
      requires !owns ==> V() == v.(entry := Some(Entry(Creating, f.gen, None, None, 0, false)))
      requires owns ==>
               && V() == Booting(HalfView(v, CreatingRecord(q, resume), q.e2b, q.volumes, f))
               && record.(state := Unknown)
                  == HalfRecord(CreatingRecord(q, resume), q.e2b, q.volumes, q.timeout, f).(state := Unknown)
      modifies this
      ensures Valid() && start == old(start) && everExposed == old(everExposed)
      ensures BootEffect(v, V(), q.e2b, q.volumes, q.timeout, CreatingRecord(q, resume), resume.None? && v.rec.Some?, f)
    {
      Rollback(q, record, owns, leased, f);
      UndoneIsEffect(v, V(), q, resume, record, f);
    }

    /** The forward half of createLocked. It reports the record as far as it was filled in, whether
        the CREATING write landed and whether the create lease exists. */
    method Boot(q: CreateRequest, resume: Option<Record>, f: CreateFaults)
      returns (ok: bool, record: Record, owns: bool, leased: bool)
      requires Valid() && entry == Some(Entry(Creating, f.gen, None, None, 0, false))
      requires cid.None? && pending == 0 && Hidden(V()) && f.ip != ""
      requires resume.Some? ==> rec == resume
      requires q.e2b ==> route.Some?
      modifies this
      ensures Valid() && start == old(start) && everExposed == old(everExposed)
      ensures ok <==> Boots(q.e2b, q.volumes, resume.None? && old(rec).Some?, f)
      ensures ok ==>
              V() == old(V()).(rec := Some(record), entry := Some(RunningEntry(q, f)), cid := Some(f.cid),
                  lease := true,
                                      route := if q.e2b then Some(old(route).value.(ip := f.ip)) else old(route))
      ensures ok ==> record == CreatingRecord(q, resume).(state := Ready, ip := f.ip, pid := f.pid, ramMB := f.bootRam,
                       startedAt := f.startClock,
                       expiresAt := if q.e2b then f.expiryClock + q.timeout else CreatingRecord(q, resume).expiresAt)
      ensures owns <==> !f.creatingWrite && (resume.None? ==> old(rec).None?)
      ensures leased <==> owns && !f.leaseCreate
      ensures !ok && !owns ==> V() == old(V())
      ensures !ok && owns ==>
              && V() == Booting(HalfView(old(V()), CreatingRecord(q, resume), q.e2b, q.volumes, f))
              && record.(state := Unknown)
                 == HalfRecord(CreatingRecord(q, resume), q.e2b, q.volumes, q.timeout, f).(state := Unknown)
      ensures ok ==> image == Some(q.template)
    {
      record := CreatingRecord(q, resume);
      // store.Create rejects an existing id
      if f.creatingWrite || (resume.None? && rec.Some?) { return false, record, false, false; }
      Act(PutRecord(record));
      if f.leaseCreate { return false, record, true, false; }
      Act(SetLease(true));
      ok, record := BootRuntime(q, record, f);
      owns, leased := true, true;
    }

    /** From the claimed record to the READY commit. */
    method BootRuntime(q: CreateRequest, r: Record, f: CreateFaults) returns (ok: bool, record: Record)
      requires Valid() && rec == Some(r) && entry == Some(Entry(Creating, f.gen, None, None, 0, false)) && lease
      requires cid.None? && pending == 0 && Hidden(V()) && f.ip != "" && r.ip == "" && (q.e2b ==> route.Some?)
               && !f.leaseCreate
      modifies this
      ensures Valid() && start == old(start) && everExposed == old(everExposed)
      ensures ok <==> Acquires(q.volumes, f) && Commits(q.e2b, f)
      ensures ok ==> V() == old(V()).(rec := Some(record), entry := Some(RunningEntry(q, f)), cid := Some(f.cid),
                                      route := if q.e2b then Some(old(route).value.(ip := f.ip)) else old(route))
      ensures ok ==>
              record == r.(state := Ready, ip := f.ip, pid := f.pid, ramMB := f.bootRam, startedAt := f.startClock,
                                  expiresAt := if q.e2b then f.expiryClock + q.timeout else r.expiresAt)
      ensures !ok ==> && V() == Booting(HalfView(old(V()), r, q.e2b, q.volumes, f))
                      && record.(state := Unknown) == HalfRecord(r, q.e2b, q.volumes, q.timeout, f).(state := Unknown)
      ensures ok ==> image == Some(q.template)
    {
      ok := AcquireRuntime(q, f);
      record := r.(ramMB := if f.cidDenied || f.boot then r.ramMB else f.bootRam,
                   pid := if entry.value.process.Some? then f.pid else r.pid);
      if !ok { return false, record; }
      ok, record := CommitReady(q, record.(ip := f.ip), f);
    }

    /** Everything the guest runs on: what was acquired stays on the entry. */
    method AcquireRuntime(q: CreateRequest, f: CreateFaults) returns (ok: bool)
      requires Valid() && entry == Some(Entry(Creating, f.gen, None, None, 0, false))
      requires cid.None? && pending == 0 && Hidden(V()) && f.ip != "" && !f.leaseCreate
      modifies this
      ensures Valid() && start == old(start) && everExposed == old(everExposed)
      ensures ok <==> Acquires(q.volumes, f)
      ensures V() == old(V()).(entry := Some(HalfEntry(q.volumes, f).(state := Creating)),
                               cid := if f.cidDenied then None else Some(f.cid))
      ensures ok ==> image == Some(q.template)
    {
      ok := PrepareRuntime(q, f);
      if ok { ok := LaunchVmm(f); }
    }

    /** Context id, boot layout, RAM admission and volumes. */
    method PrepareRuntime(q: CreateRequest, f: CreateFaults) returns (ok: bool)
      requires Valid() && entry == Some(Entry(Creating, f.gen, None, None, 0, false))
      requires cid.None? && pending == 0
      modifies this
      ensures Valid() && start == old(start) && everExposed == old(everExposed)
      ensures ok <==> Prepares(q.volumes, f)
      ensures V() == old(V()).(cid := if f.cidDenied then None else Some(f.cid),
                entry := Some(Entry(Creating, f.gen, None, None,
                                    if !f.cidDenied && !f.boot && f.metered && !f.ramDenied then f.bootRam else 0,
                                    q.volumes && ok)))
      ensures ok ==> image == Some(q.template)
    {
      if f.cidDenied { return false; }
      Act(TakeCid(f.cid));
      if f.boot { return false; }
      image := Some(q.template);
      if f.metered {
        if f.ramDenied { return false; }
        Act(TakeRam(f.bootRam));
        Act(BookRam);
      }
      if q.volumes {
        if f.volumes { return false; }
        Act(SetVolumes);
      }
      ok := true;
    }

    /** The end of a boot: envd is up, the route is published, and the READY write commits. */
    method CommitReady(q: CreateRequest, r: Record, f: CreateFaults) returns (ok: bool, record: Record)
      requires Valid() && rec.Some? && entry.Some? && entry.value.slot == Some(f.ip) && r.ip == f.ip && f.ip != ""
      requires Hidden(V()) && (q.e2b ==> route.Some?) && !FrozenByCapture(V())
      modifies this
      ensures Valid() && start == old(start) && everExposed == old(everExposed)
      ensures ok <==> Commits(q.e2b, f)
      ensures route == if q.e2b && Answers(f) then Some(old(route).value.(ip := f.ip)) else old(route)
      ensures record == r.(state := if q.e2b && !Answers(f) then r.state else Ready,
                           startedAt := if q.e2b && !Answers(f) then r.startedAt else f.startClock,
                           expiresAt := if q.e2b && Answers(f) then f.expiryClock + q.timeout else r.expiresAt)
      ensures V() == old(V()).(route := route, rec := if ok then Some(record) else old(rec),
                entry := if ok then Some(old(entry).value.(state := Ready)) else old(entry))
      ensures image == old(image)
    {
      record := r;
      if q.e2b {
        if f.envd || f.diedInBootstrap || f.publishRefused { return false, record; }
        Act(PublishRoute(f.ip));
        record := record.(expiresAt := f.expiryClock + q.timeout);
      }
      record := record.(state := Ready, startedAt := f.startClock);
      if f.readyWrite { return false, record; }
      Act(PutRecord(record));
      Act(SetState(Ready));
      ok := true;
    }

    /** launchSandbox: acquires the slot, then the process; what was acquired stays on the entry. */
    method LaunchVmm(f: CreateFaults) returns (ok: bool)
      requires Valid() && entry.Some? && entry.value.process.None? && entry.value.slot.None? && cid.Some? && f.ip != ""
               && Hidden(V())
      requires f.metered ==> entry.value.ram == f.bootRam
      modifies this
      ensures Valid() && start == old(start) && everExposed == old(everExposed)
      ensures ok == f.launch.Launched?
      ensures V() == old(V()).(entry := Some(old(entry).value.(
                slot := if GotSlot(f) then Some(f.ip) else None,
                process := if GotProcess(f) then Some(LaunchedProcess(f)) else None)))
      ensures image == old(image)
    {
      if f.launch.PreflightFailed? || f.launch.NoSlot? { return false; }
      Act(TakeSlot(f.ip));
      if f.launch.SlotOnly? { return false; }
      Act(Launch(f.vmm, !(f.launch.ProcessFailed? && !f.launch.started), f.bootRam, f.metered));
      ok := f.launch.Launched?;
    }

    /** The deferred half of createLocked: a confirmed cleanup finalizes the record, an unconfirmed
        one keeps it as UNKNOWN with every resource it still owns. */
    method Rollback(q: CreateRequest, record: Record, owns: bool, leased: bool, f: CreateFaults)
      requires Valid() && entry.Some? && entry.value.state == Creating && pending == 0
      requires owns ==> rec.Some? && record.e2b == q.e2b
      requires !owns ==>
               !leased && entry == Some(Entry(Creating, f.gen, None, None, 0, false)) && Hidden(V()) && cid.None?
      modifies this
      ensures Valid() && start == old(start) && everExposed == old(everExposed)
      ensures !owns ==> V() == old(V()).(entry := None, resv := if q.e2b then None else old(resv),
                                         route := if f.cleanup.ctxDone then old(route) else None)
      ensures owns ==> RolledBack(old(V()).(entry := Some(old(entry).value.(state := Unknown))), V(), record, leased, f)
    {
      Act(SetState(Unknown));
      var cleaned := CleanupSandbox(f.cleanup);
      if owns {
        FinishOwned(record, cleaned, leased, f);
      } else {
        // nothing of this sandbox is persisted, so there is no record to finalize
        DeleteEntry();
        if q.e2b { ReleaseCapacity(); }
      }
    }

    /** The rollback of a boot whose record is persisted. */
    method FinishOwned(record: Record, cleaned: bool, leased: bool, f: CreateFaults)
      requires Valid() && rec.Some? && entry.Some? && entry.value.state == Unknown
      requires cleaned ==> entry.value.process.None? && entry.value.slot.None? && entry.value.ram == 0
      modifies this
      ensures Valid() && start == old(start) && everExposed == old(everExposed)
      ensures !cleaned || (leased && f.leaseDelete) ==>
              V() == old(V()).(rec := if f.final.unknownWrite then old(rec) else Some(record.(state := Unknown)))
      ensures cleaned && !(leased && f.leaseDelete) ==>
              && V() == old(V()).(rec := rec, entry := None, resv := if record.e2b then None else old(resv),
                                  lease := !leased && old(lease))
              && rec == Finalized(old(rec), record, f.final)
    {
      var ok := cleaned;
      if ok && leased { ok := ReleaseLease(f.leaseDelete); }
      if ok {
        var _ := FinalizeReleased(record, false, f.final);
      } else {
        var _ := SaveRecord(record.(state := Unknown), f.final.unknownWrite);
      }
    }

    // -------------------------------------------------------------------------------------------
    // Delete, Expire, exit
    // -------------------------------------------------------------------------------------------

    /** persistDeleteFailure: UNKNOWN with the lineage cleared, so a retry stays a deletion. */
    method PersistDeleteFailure(writeFails: bool)
      requires Valid()
      modifies this
      ensures Valid() && start == old(start) && everExposed == old(everExposed)
      ensures V() == old(V()).(rec := rec)
      ensures if writeFails || old(rec).None? then rec == old(rec)
              else rec == Some(old(rec).value.(state := Unknown, head := old(rec).value.source))
    {
      if rec.Some? {
        var _ := SaveRecord(rec.value.(state := Unknown, head := rec.value.source), writeFails);
      }
    }

    /** The runtime half of Delete and Expire: from here on no other operation takes the entry up. */
    method TearDown(f: CleanupFaults, failureWrite: bool) returns (ok: bool)
      requires Valid() && Rest(V())
      modifies this
      ensures Valid() && start == old(start) && everExposed == old(everExposed)
      ensures ok == TearsDown(old(V()), f)
      ensures TornDown(old(V()), V().(rec := old(rec)), f)
      ensures if ok then rec == old(rec) else VerdictWritten(old(rec), rec, failureWrite)
    {
      if entry.None? { return true; }
      Act(SetState(Unknown));
      ok := CleanupSandbox(f);
      if !ok { PersistDeleteFailure(failureWrite); }
    }

    /** Delete: also handles records without a runtime and missing records. */
    method Delete(f: DeleteFaults) returns (r: Outcome)
      requires Valid() && Rest(V())
      modifies this
      ensures Valid() && start == old(start) && everExposed == old(everExposed)
      ensures Rest(V()) && VerdictStands(old(V()), V())
      ensures DeadlineKept(old(V()), V())
      ensures r.Ok? <==>
              !f.get && !f.ctxDone && TearsDown(old(V()), f.cleanup) && !f.leaseDelete && !f.recordDelete
      ensures DeleteEffect(old(V()), V(), f)
      ensures r.Err? && old(rec).Some? && !f.get && !f.ctxDone && !f.failureWrite ==> Doomed(V())
    {
      if f.get || f.ctxDone {
        r := Err(Internal);
      } else {
        var released := TearDown(f.cleanup, f.failureWrite);
        if released { r := DeleteReleased(f); } else { r := Err(Internal); }
      }
      DeleteLeaves(old(V()), V(), f);
    }

    /** The part of Delete after the runtime is released. */
    method DeleteReleased(f: DeleteFaults) returns (r: Outcome)
      requires Valid()
      requires entry.Some? ==> entry.value.process.None? && entry.value.slot.None? && entry.value.ram == 0
      modifies this
      ensures Valid() && start == old(start) && everExposed == old(everExposed)
      ensures r.Ok? <==> !f.leaseDelete && !f.recordDelete
      ensures r.Ok? ==> V() == old(V()).(rec := None, entry := None, lease := false,
                                         resv := if old(rec).Some? && old(rec).value.e2b then None else old(resv))
      ensures r.Err? ==> V() == old(V()).(rec := rec, lease := old(lease) && f.leaseDelete)
      ensures r.Err? ==> if f.failureWrite || old(rec).None? then rec == old(rec)
                         else rec == Some(old(rec).value.(state := Unknown, head := old(rec).value.source))
    {
      var e2b := rec.Some? && rec.value.e2b;
      var ok := ReleaseLease(f.leaseDelete);
      if ok { ok := DeleteRecord(f.recordDelete); }
      if !ok {
        PersistDeleteFailure(f.failureWrite);
        return Err(Internal);
      }
      DeleteEntry();
      if e2b { ReleaseCapacity(); }
      r := Ok;
    }

    /** Expire: deletes a READY E2B sandbox whose deadline passed before the tick. */
    method Expire(expiredBefore: Option<int>, f: ExpireFaults) returns (r: Outcome)
      requires Valid() && Rest(V())
      modifies this
      ensures Valid() && start == old(start) && everExposed == old(everExposed)
      ensures Rest(V()) && VerdictStands(old(V()), V())
      ensures DeadlineKept(old(V()), V())
      ensures r.Ok? <==> ExpiryApplies(old(V()), expiredBefore) && !f.get && TearsDown(old(V()), f.cleanup)
                         && !f.leaseDelete && !f.final.terminalWrite
      ensures ExpireEffect(old(V()), V(), expiredBefore, f)
      ensures r.Err? && ExpiryApplies(old(V()), expiredBefore) && !f.get && !f.failureWrite && !f.final.unknownWrite ==>
              Doomed(V())
    {
      if f.get || rec.None? { return Err(NotFound); }
      if !rec.value.e2b { return Err(NotFound); }
      if rec.value.state != Ready { return Err(FailedPrecondition); }
      if StillAlive(rec.value, expiredBefore) { return Err(FailedPrecondition); }
      var released := TearDown(f.cleanup, f.failureWrite);
      if !released { return Err(Internal); }
      r := ExpireReleased(f);
    }

    /** The part of Expire after the runtime is released: the verdict is deletion. */
    method ExpireReleased(f: ExpireFaults) returns (r: Outcome)
      requires Valid() && rec.Some? && rec.value.e2b
      requires entry.Some? ==> entry.value.process.None? && entry.value.slot.None? && entry.value.ram == 0
      modifies this
      ensures Valid() && start == old(start) && everExposed == old(everExposed)
      ensures r.Ok? <==> !f.leaseDelete && !f.final.terminalWrite
      ensures f.leaseDelete ==> V() == old(V()).(rec := rec) && VerdictWritten(old(rec), rec, f.failureWrite)
      ensures !f.leaseDelete ==> V() == old(V()).(rec := rec, entry := None, resv := None, lease := false)
      ensures !f.leaseDelete ==> rec == if !f.final.terminalWrite then None
                                        else if f.final.unknownWrite then old(rec)
                                        else Some(UnknownAfterRelease(old(rec).value, true))
    {
      var released := ReleaseLease(f.leaseDelete);
      if !released {
        PersistDeleteFailure(f.failureWrite);
        return Err(Internal);
      }
      var ok := FinalizeReleased(rec.value, true, f.final);
      r := if ok then Ok else Err(Internal);
    }

    /** handleSandboxExit: the exit notice of an earlier incarnation, or of a runtime some operation
        already took over, is ignored. A native record becomes UNKNOWN; an E2B record stays READY
        with its quota, and loses its runtime view and entry once the cleanup is confirmed. */
    method HandleExit(gen: nat, f: ExitFaults)
      requires Valid() && Rest(V())
      modifies this
      ensures Valid() && start == old(start) && everExposed == old(everExposed)
      ensures Rest(V()) && VerdictStands(old(V()), V())
      ensures DeadlineKept(old(V()), V())
      ensures ExitEffect(old(V()), V(), gen, f)
    {
      if entry.None? || entry.value.gen != gen || entry.value.state == Unknown { return; }
      var cleaned := CleanupAfterExit(f);
      RecordExit(cleaned, f);
    }

    /** The runtime half of an exit: whatever fails, nobody takes the entry for running any more. */
    method CleanupAfterExit(f: ExitFaults) returns (cleaned: bool)
      requires Valid() && Rest(V()) && entry.Some? && Running(entry.value.state)
      modifies this
      ensures Valid() && start == old(start) && everExposed == old(everExposed)
      ensures cleaned == Cleans(old(entry).value, f.cleanup) && rec == old(rec)
      ensures Rest(V()) && entry.Some? && entry.value.state == Unknown
      ensures TornDown(old(V()), V().(lease := old(lease)), f.cleanup) && lease == (old(lease) && f.leaseDelete)
    {
      cleaned := CleanupSandbox(f.cleanup);
      CleanedAside(old(V()), V(), f.cleanup);
      Act(SetState(Unknown));
      var _ := ReleaseLease(f.leaseDelete);
    }

    /** What the store learns of an exit. */
    method RecordExit(cleaned: bool, f: ExitFaults)
      requires Valid() && rec.Some? && entry.Some?
      requires cleaned ==> entry.value.process.None? && entry.value.slot.None? && entry.value.ram == 0
      modifies this
      ensures Valid() && start == old(start) && everExposed == old(everExposed)
      ensures V() == old(V()).(rec := rec, entry := entry)
      ensures entry == if old(rec).value.e2b && cleaned && !f.get && !f.write then None else old(entry)
      ensures rec == Some(if f.get || f.write then old(rec).value
                          else if !old(rec).value.e2b then old(rec).value.(state := Unknown)
                          else if cleaned then old(rec).value.(ip := "", pid := 0) else old(rec).value)
    {
      if f.get { return; }
      var r := rec.value;
      if !r.e2b {
        var _ := SaveRecord(r.(state := Unknown), f.write);
        return;
      }
      if !cleaned {
        var _ := SaveRecord(r, f.write);
        return;
      }
      var saved := SaveRecord(r.(ip := "", pid := 0), f.write);
      if saved { DeleteEntry(); }
    }

    // -------------------------------------------------------------------------------------------
    // Suspend, resume, network, deadline
    // -------------------------------------------------------------------------------------------

    /** changeState: Suspend (READY to SUSPENDED) and Resume (SUSPENDED to READY). The entry follows
        the VMM; a failed VMM call degrades it to UNKNOWN; the record follows the entry if the
        write lands. */
    method ChangeState(suspend: bool, getFails: bool, vmmFails: bool, writeFails: bool, routeRefused: bool)
        returns (r: Outcome)
      requires Valid() && Rest(V())
      modifies this
      ensures Valid() && start == old(start) && everExposed == old(everExposed)
      ensures Rest(V()) && VerdictStands(old(V()), V())
      ensures DeadlineKept(old(V()), V())
      ensures r.Ok? <==> ChangeApplies(old(V()), suspend) && !getFails && !vmmFails && !writeFails
      ensures ChangeEffect(old(V()), V(), suspend, getFails, vmmFails, writeFails, routeRefused)
    {
      if entry.None? { return Err(NotFound); }
      if entry.value.state != (if suspend then Ready else Suspended) { return Err(FailedPrecondition); }
      if getFails { return Err(Internal); }
      MoveGuest(suspend, vmmFails);
      var saved := SaveRecord(rec.value.(state := entry.value.state), writeFails);
      if !vmmFails && !suspend && rec.value.e2b { RestoreRoute(rec.value, routeRefused); }
      r := if vmmFails || !saved then Err(Internal) else Ok;
    }

    /** The VMM call of a state change, and the entry that follows it. */
    method MoveGuest(suspend: bool, vmmFails: bool)
      requires Valid() && entry.Some? && entry.value.process.Some?
      modifies this
      ensures Valid() && start == old(start) && everExposed == old(everExposed)
      ensures V() == old(V()).(entry := Some(if vmmFails then old(entry).value.(state := Unknown)
                else old(entry).value.(
                  state := if suspend then Suspended else Ready,
                  process := Some(old(entry).value.process.value.(freeze := if suspend then ByUser else Thawed)))))
    {
      if vmmFails {
        Act(SetState(Unknown));
      } else {
        Act(SetFreeze(if suspend then ByUser else Thawed));
        Act(SetState(if suspend then Suspended else Ready));
      }
    }

    /** UpdateNetwork: stores the new policy, applies it, and on failure applies and stores the old
        one back; a failed rollback freezes the guest and degrades the entry. */
    method UpdateNetwork(network: string, getFails: bool, write: bool, apply: bool, rollback: bool, suspendFails: bool,
                         rollbackWrite: bool) returns (r: Outcome)
      requires Valid() && Rest(V())
      modifies this
      ensures Valid() && start == old(start) && everExposed == old(everExposed)
      ensures Rest(V()) && VerdictStands(old(V()), V())
      ensures DeadlineKept(old(V()), V())
      ensures r.Ok? <==> old(entry).Some? && Running(old(entry).value.state) && !getFails && !write && !apply
      ensures NetworkEffect(old(V()), V(), network, getFails, write, apply, rollback, suspendFails, rollbackWrite)
    {
      if entry.None? { return Err(NotFound); }
      if !Running(entry.value.state) { return Err(FailedPrecondition); }
      if getFails || write { return Err(Internal); }
      var before := rec.value;
      var _ := SaveRecord(before.(network := network), write);
      if apply { RollBackNetwork(before, rollback, suspendFails, rollbackWrite); }
      r := if apply then Err(Internal) else Ok;
    }

    /** The old policy goes back to the guest and to the store; if the guest refuses it too, the guest
        stops. */
    method RollBackNetwork(before: Record, rollback: bool, suspendFails: bool, rollbackWrite: bool)
      requires Valid() && rec.Some? && entry.Some? && entry.value.process.Some?
      modifies this
      ensures Valid() && start == old(start) && everExposed == old(everExposed)
      ensures V() == old(V()).(rec := rec, entry := entry) && entry.Some?
      ensures if !rollback then entry == old(entry)
              else entry.value == old(entry).value.(state := Unknown,
                     process := Some(old(entry).value.process.value.(freeze :=
                       if old(entry).value.state == Ready && !suspendFails then ByUser
                       else old(entry).value.process.value.freeze)))
      ensures rec == if rollbackWrite then old(rec) else Some(before.(state := entry.value.state))
    {
      if rollback { FreezeForNetwork(suspendFails); }
      var _ := SaveRecord(before.(state := entry.value.state), rollbackWrite);
    }

    /** A policy that cannot be rolled back stops the guest and degrades the entry. */
    method FreezeForNetwork(suspendFails: bool)
      requires Valid() && entry.Some? && entry.value.process.Some?
      modifies this
      ensures Valid() && start == old(start) && everExposed == old(everExposed)
      ensures entry.Some? && entry.value.process.Some?
      ensures V() == old(V()).(entry := Some(old(entry).value.(state := Unknown, process := entry.value.process)))
      ensures entry.value.process.value == old(entry).value.process.value.(freeze :=
                if old(entry).value.state == Ready && !suspendFails then ByUser
                else old(entry).value.process.value.freeze)
    {
      if entry.value.state == Ready && !suspendFails { Act(SetFreeze(ByUser)); }
      Act(SetState(Unknown));
    }

    /** ApplyTTL: moves the deadline of a READY E2B run. */
    method ApplyTTL(q: TtlRequest, getFails: bool, writeFails: bool, checkClock: int, deadlineClock: int)
        returns (r: Outcome)
      requires Valid() && Rest(V()) && checkClock <= deadlineClock
      modifies this
      ensures Valid() && start == old(start) && everExposed == old(everExposed)
      ensures Rest(V()) && VerdictStands(old(V()), V())
      ensures r.Ok? <==> TtlApplies(old(V()), q, getFails, checkClock)
                         && (TtlMoves(old(rec).value, q, deadlineClock) ==> !writeFails)
      ensures TtlEffect(old(V()), V(), q, getFails, writeFails, checkClock, deadlineClock)
      // an extending request never lowers the deadline; any other sets it to what was asked, or to the cap
      ensures q.extendOnly && rec.Some? ==> rec.value.expiresAt >= old(rec).value.expiresAt
      ensures r.Ok? && !q.extendOnly && q.maxLifetime <= 0 ==>
              rec.value.expiresAt == if q.ttl > 0 then deadlineClock + q.ttl else deadlineClock
      ensures rec != old(rec) && q.maxLifetime > 0 ==> rec.value.expiresAt <= rec.value.startedAt + q.maxLifetime
    {
      var refusal := TtlRefusal(V(), q, getFails, checkClock);
      if refusal.Some? { return Err(refusal.value); }
      var deadline := ClampDeadline(q, rec.value.startedAt, deadlineClock);
      if q.extendOnly && (q.ttl <= 0 || rec.value.expiresAt >= deadline) { return Ok; }
      var saved := SaveRecord(rec.value.(expiresAt := deadline), writeFails);
      r := if saved then Ok else Err(Internal);
    }

    // -------------------------------------------------------------------------------------------
    // Checkpoint
    // -------------------------------------------------------------------------------------------

    /** FullCheckpointCapture.Capture: a guest this capture froze is thawed on every path, except a
        successful capture that is asked to leave it paused; a guest it found suspended is left so. */
    method Capture(pauseBefore: bool, leavePaused: bool, f: CaptureFaults) returns (o: CaptureOutcome)
      requires Valid() && entry.Some? && entry.value.process.Some? && !FrozenByCapture(V()) && Hidden(V())
      modifies this
      ensures Valid() && start == old(start) && everExposed == old(everExposed)
      ensures entry == Some(if !pauseBefore || f.prepare || f.pause then old(entry).value
                            else WithFreeze(old(entry).value, if o.CaptureResumeFailed? || (o.Captured? && leavePaused)
                                                              then ByCapture else Thawed))
      ensures V() == old(V()).(entry := entry)
      ensures o.CaptureResumeFailed? <==>
              pauseBefore && !f.prepare && !f.pause && f.resume && (f.artifacts || !leavePaused)
      ensures o.Captured? <==> !f.prepare && !f.artifacts && (pauseBefore ==> !f.pause && (leavePaused || !f.resume))
    {
      if f.prepare || (pauseBefore && f.pause) { return CaptureFailed; }
      if pauseBefore { Act(SetFreeze(ByCapture)); }
      // a failed capture and one that is not to stay paused both end with a resume
      if pauseBefore && (f.artifacts || !leavePaused) {
        if f.resume { return CaptureResumeFailed; }
        Act(SetFreeze(Thawed));
      }
      o := if f.artifacts then CaptureFailed else Captured;
    }

    /** beginCheckpoint: captures and publishes without moving the record's head. A guest that could
        not be thawed is recorded as SUSPENDED. */
    method BeginCheckpoint(leavePaused: bool, f: CheckpointFaults) returns (o: BeginOutcome)
      requires Valid() && Rest(V()) && entry.Some? && Hidden(V())
      modifies this
      ensures Valid() && start == old(start) && everExposed == old(everExposed)
      ensures o.ThawFailed? <==> ThawLost(old(entry).value, leavePaused, f)
      ensures o.Begun? <==> Begins(old(entry).value, leavePaused, f)
      ensures o.FailedAfterCapture? <==> leavePaused && f.publish && CaptureHeld(old(entry).value, leavePaused, f)
      ensures rec == if o.ThawFailed? then Some(FrozenRecord(old(rec).value, f)) else old(rec)
      ensures entry == Some(if !Freezes(old(entry).value, f) then old(entry).value
                            else if o.ThawFailed? then WithFreeze(old(entry).value, ByCapture).(state := Suspended)
                            else if leavePaused && !o.Refused? then WithFreeze(old(entry).value, ByCapture)
                            else WithFreeze(old(entry).value, Thawed))
      ensures V() == old(V()).(rec := rec, entry := entry)
    {
      if f.inspect { return Refused; }
      if !Running(entry.value.state) || entry.value.volumes { return Refused; }
      var wasSuspended := entry.value.state == Suspended;
      var captured := Capture(!wasSuspended, leavePaused, f.capture);
      if captured.CaptureResumeFailed? {
        RecordFrozen(f);
        return ThawFailed;
      }
      if captured.CaptureFailed? { return Refused; }
      if f.publish { return if leavePaused then FailedAfterCapture else Refused; }
      o := Begun;
    }

    /** captureCheckpoint on a guest it could not thaw: entry and, if the write lands, record say so. */
    method RecordFrozen(f: CheckpointFaults)
      requires Valid() && rec.Some? && entry.Some?
      modifies this
      ensures Valid() && start == old(start) && everExposed == old(everExposed)
      ensures V() == old(V()).(rec := rec, entry := Some(old(entry).value.(state := Suspended)))
      ensures rec == if f.suspendGet || f.suspendWrite then old(rec) else Some(old(rec).value.(state := Suspended))
    {
      Act(SetState(Suspended));
      if !f.suspendGet {
        var _ := SaveRecord(rec.value.(state := Suspended), f.suspendWrite);
      }
    }

    /** Withdraws the route and begins the checkpoint. */
    method WithdrawAndBegin(leavePaused: bool, f: CheckpointFaults) returns (o: BeginOutcome)
      requires Valid() && Rest(V()) && entry.Some?
      modifies this
      ensures Valid() && start == old(start) && everExposed == old(everExposed)
      ensures AfterCapture(old(V()), V(), leavePaused, o, f)
    {
      WithdrawRoute(f.lifetime);
      o := BeginCheckpoint(leavePaused, f);
    }

    /** A resumed guest is READY and only then reachable again. */
    method Unfreeze(r: Record, routeRefused: bool)
      requires Valid() && entry.Some? && entry.value.process.Some? && !entry.value.process.value.exited
      requires Hidden(V()) && r.ip != "" && entry.value.slot == Some(r.ip)
      modifies this
      ensures Valid() && start == old(start) && everExposed == old(everExposed)
      ensures V() == old(V()).(route := route, entry := Some(old(entry).value.(state := Ready,
                process := Some(old(entry).value.process.value.(freeze := Thawed)))))
      ensures route == if routeRefused || old(route).None? then old(route) else Some(old(route).value.(ip := r.ip))
    {
      Act(SetFreeze(Thawed));
      Act(SetState(Ready));
      RestoreRoute(r, routeRefused);
    }

    /** undoSuspendedCheckpoint: resuming the VMM returns both sides to READY or degrades both to
        UNKNOWN. `r` is the record as the operation read it. */
    method UndoSuspended(r: Record, f: CheckpointFaults) returns (ok: bool)
      requires Valid() && RestIfUnknown(V()) && Recapturable(V(), r) && Hidden(V())
      modifies this
      ensures Valid() && start == old(start) && everExposed == old(everExposed)
      ensures Rest(V())
      ensures V() == old(V()).(rec := rec, entry := entry, route := route)
      ensures ok == (!f.undoResume && !old(entry).value.process.value.exited)
      ensures rec == if f.undoWrite then old(rec) else Some(r.(state := if ok then Ready else Unknown))
      ensures entry == Some(if ok then WithFreeze(old(entry).value, Thawed).(state := Ready)
                            else old(entry).value.(state := Unknown))
      ensures route == if ok && !f.routeRefused
              && old(route).Some? then Some(old(route).value.(ip := r.ip)) else old(route)
    {
      // a VMM whose exit is confirmed cannot be resumed
      ok := !f.undoResume && !entry.value.process.value.exited;
      if ok {
        Unfreeze(r, f.routeRefused);
      } else {
        Act(SetState(Unknown));
      }
      var _ := SaveRecord(r.(state := if ok then Ready else Unknown), f.undoWrite);
    }

    /** Checkpoint: the route is withdrawn while the guest may be frozen, and the head moves only
        once the new Boot Index is published and registered. */
    method Checkpoint(f: CheckpointFaults) returns (r: Outcome)
      requires Valid() && Rest(V()) && f.digest != ""
      modifies this
      ensures Valid() && start == old(start)
      ensures Rest(V()) && VerdictStands(old(V()), V()) && DeadlineKept(old(V()), V())
      ensures everExposed <==> old(everExposed) || (RepublishesFrozen(old(V())) && !f.get && !f.routeRefused)
      ensures RepublishesFrozen(old(V())) && !f.get && !f.routeRefused ==> Exposed(V())
      ensures r.Ok? <==> old(entry).Some? && !f.get && Begins(old(entry).value, false, f) && !f.headWrite && !f.register
      ensures CheckpointEffect(old(V()), V(), f)
      // refused or not, the sandbox is reachable again unless its guest could not be thawed at all
      ensures !f.get && !f.routeRefused && !StaysFrozen(old(V()), f) && old(entry).Some? && old(route).Some?
              && old(rec).value.ip != ""
              ==> route.Some? && route.value.ip == old(rec).value.ip
    {
      if entry.None? {
        r := Err(NotFound);
      } else if f.get {
        r := Err(Internal);
      } else {
        var begun := CaptureRound(f);
        if begun { r := MoveHead(rec.value, f); } else { r := Err(Internal); }
      }
      CheckpointLeaves(old(V()), V(), f);
    }

    /** Checkpoint up to the published Boot Index: withdraw, capture, restore. */
    method CaptureRound(f: CheckpointFaults) returns (begun: bool)
      requires Valid() && Rest(V()) && entry.Some?
      modifies this
      ensures Valid() && start == old(start) && Rest(V())
      ensures everExposed <==> old(everExposed) || (RepublishesFrozen(old(V())) && !f.routeRefused)
      ensures RepublishesFrozen(old(V())) && !f.routeRefused ==> Exposed(V())
      ensures begun <==> Begins(old(entry).value, false, f)
      ensures CaptureOver(old(V()), V(), f)
    {
      var before := rec.value;
      var o := WithdrawAndBegin(false, f);
      ghost var mid := V();
      Reopen(before, o, f);
      CaptureIsOver(old(V()), mid, V(), o, f);
      ExposureIs(old(V()), mid, V(), o, f);
      begun := o.Begun?;
    }

    /** After the capture attempt: undo a failed thaw, otherwise serve traffic again. */
    method Reopen(before: Record, o: BeginOutcome, f: CheckpointFaults)
      requires Valid() && Hidden(V()) && rec.Some? && entry.Some?
      requires o.ThawFailed? ==> RestIfUnknown(V()) && Recapturable(V(), before) && !entry.value.process.value.exited
      requires !o.ThawFailed? ==> Rest(V()) && rec == Some(before)
      modifies this
      ensures Valid() && start == old(start) && Rest(V())
      ensures Reopened(old(V()), V(), before, o, f)
      ensures everExposed == (old(everExposed) || (!o.ThawFailed? && Exposed(V())))
    {
      if o.ThawFailed? {
        var _ := UndoSuspended(before, f);
      } else {
        RestoreRoute(before, f.routeRefused);
      }
    }

    /** The head move and its rollback when registration fails. */
    method MoveHead(before: Record, f: CheckpointFaults) returns (r: Outcome)
      requires Valid() && rec == Some(before)
      modifies this
      ensures Valid() && start == old(start) && everExposed == old(everExposed)
      ensures V() == old(V()).(rec := rec)
      ensures r.Ok? <==> !f.headWrite && !f.register
      ensures rec == Some(if f.headWrite || (f.register && !f.rollbackWrite) then before
                          else before.(head := f.digest, headStartedAt := before.startedAt, headCreatedAt := f.clock))
    {
      var moved := before.(head := f.digest, headStartedAt := before.startedAt, headCreatedAt := f.clock);
      var saved := SaveRecord(moved, f.headWrite);
      if !saved { return Err(Internal); }
      if f.register {
        var _ := SaveRecord(moved.(head := before.head, headStartedAt := before.headStartedAt,
            headCreatedAt := before.headCreatedAt),
                            f.rollbackWrite);
        return Err(Internal);
      }
      r := Ok;
    }

    // -------------------------------------------------------------------------------------------
    // Pause
    // -------------------------------------------------------------------------------------------

    /** resumeCapturedSandbox: hands a captured guest back running; a failed resume falls back to
        undoSuspendedCheckpoint, which retries and persists the degraded state. */
    method ResumeCaptured(r: Record, firstResume: bool, f: CheckpointFaults)
      requires Valid() && RestIfUnknown(V()) && Recapturable(V(), r) && rec == Some(r) && r.state == Ready
               && Hidden(V())
      modifies this
      ensures Valid() && start == old(start) && everExposed == old(everExposed)
      ensures Rest(V()) && V() == old(V()).(rec := rec, entry := entry, route := route)
      // the guest runs again unless it is gone or refuses twice
      ensures var back := !old(entry).value.process.value.exited && (!firstResume || !f.undoResume);
              && entry == Some(if back then WithFreeze(old(entry).value, Thawed).(state := Ready)
                               else old(entry).value.(state := Unknown))
              && rec == Some(if back || f.undoWrite then r else r.(state := Unknown))
              && route == if back && !f.routeRefused && old(route).Some? then Some(old(route).value.(ip := r.ip))
                          else old(route)
    {
      if firstResume || entry.value.process.value.exited {
        var _ := UndoSuspended(r, f);
        return;
      }
      Unfreeze(r, f.routeRefused);
    }

    /** Pause: checkpoints a READY E2B sandbox and releases its runtime. `stop` reports the verdict
        of stopping the VMM, if the operation got that far. */
    method Pause(expiredBefore: Option<int>, f: PauseFaults) returns (r: Outcome, stop: Option<StopOutcome>)
      requires Valid() && Rest(V())
      requires rec.Some? ==> f.begin.digest !in {"", rec.value.source, rec.value.head}
      modifies this
      ensures Valid() && start == old(start) && everExposed == old(everExposed)
      ensures r == Err(RuntimeDead) <==> !f.begin.get && ExpiryApplies(old(V()), expiredBefore) && !InService(old(V()))
      ensures stop == if StopReached(old(V()), expiredBefore, f) then Some(f.stop) else None
      ensures r.Ok? <==> StopReached(old(V()), expiredBefore, f) && Releases(old(entry).value, f)
      ensures PauseEffect(old(V()), V(), expiredBefore, f)
      ensures Rest(V()) && VerdictStands(old(V()), V()) && DeadlineKept(old(V()), V())
      // the VMM is gone and some record write landed: the new capture is the head and the record passes the resume gate
      ensures stop == Some(Stopped) && rec != old(rec) ==> rec.value.head == f.begin.digest && Resumable(rec.value)
      // otherwise the head is the old one
      ensures stop != Some(Stopped) && rec.Some? ==> SameLineage(rec.value, old(rec).value)
      // a guest that was captured and is not gone runs again, reachable, unless it refuses to resume twice
      ensures PauseApplies(old(V()), expiredBefore, f) && CaptureHeld(old(entry).value, true, f.begin)
              && (stop.None? || stop == Some(StopFailed(false))) && (!f.firstResume || !f.begin.undoResume)
              ==> && InService(V()) && entry.value.state == Ready && entry.value.process.Some?
                  && entry.value.process.value.freeze == Thawed && rec == old(rec)
                  && (route.Some? && !f.begin.routeRefused ==> route.value.ip == rec.value.ip)
      // Stop reported an error although the process exited: the captured checkpoint is not kept
      ensures stop == Some(StopFailed(true)) ==>
                && entry.Some? && entry.value.state == Unknown && entry.value.process.Some?
                && entry.value.process.value.exited
                && rec.Some? && (f.begin.undoWrite || rec.value.state == Unknown)
                && (f.begin.undoWrite || (Resumable(rec.value) <==> old(rec).value.head != old(rec).value.source))
    {
      stop := None;
      var refusal := PauseRefusal(V(), expiredBefore, f);
      if refusal.Some? {
        r := Err(refusal.value);
      } else {
        r, stop := PauseRunning(f);
      }
      PauseLeaves(old(V()), V(), expiredBefore, f);
    }

    /** Pause of a READY record whose entry is in service. */
    method PauseRunning(f: PauseFaults) returns (r: Outcome, stop: Option<StopOutcome>)
      requires Valid() && Rest(V()) && rec.Some? && rec.value.e2b && rec.value.state == Ready
      requires entry.Some? && Running(entry.value.state)
      requires f.begin.digest !in {"", rec.value.source, rec.value.head}
      modifies this
      ensures Valid() && start == old(start) && everExposed == old(everExposed)
      ensures Rest(V()) && r != Err(RuntimeDead)
      ensures stop == if Begins(old(entry).value, true, f.begin) && !f.labels then Some(f.stop) else None
      ensures r.Ok? <==> stop.Some? && Releases(old(entry).value, f)
      ensures PauseRun(old(V()), V(), f)
    {
      var before := rec.value;
      var begun := CaptureForPause(before, f);
      if begun {
        r, stop := StopAndRelease(before, f);
        if f.stop.StopFailed? { ReturnedHandsBack(old(V()), V(), f); }
      } else {
        r, stop := Err(Internal), None;
      }
    }

    /** Pause up to the published capture: every failure hands the guest back or degrades it. */
    method CaptureForPause(before: Record, f: PauseFaults) returns (begun: bool)
      requires Valid() && Rest(V()) && rec == Some(before) && before.state == Ready
      requires entry.Some? && Running(entry.value.state)
      modifies this
      ensures Valid() && start == old(start) && everExposed == old(everExposed)
      ensures begun <==> Begins(old(entry).value, true, f.begin) && !f.labels
      ensures if begun then V() == HeldFor(old(V()), f) else Rest(V()) && PauseGivenUp(old(V()), V(), f)
    {
      var o := WithdrawAndBegin(true, f.begin);
      begun := o.Begun? && !f.labels;
      if !begun {
        ghost var mid := V();
        AbandonPause(before, o, f);
        GivenUpIs(old(V()), mid, V(), o, f);
      }
    }

    /** The error paths of a pause before the Stop. */
    method AbandonPause(before: Record, o: BeginOutcome, f: PauseFaults)
      requires Valid() && Hidden(V()) && rec.Some? && entry.Some?
      requires o.Refused? ==> Rest(V()) && !FrozenByCapture(V())
      requires !o.Refused? ==> RestIfUnknown(V()) && Recapturable(V(), before) && !entry.value.process.value.exited
      requires o.ThawFailed? || (rec == Some(before) && before.state == Ready)
      requires before.ip != "" && (route.Some? ==> entry.value.slot == Some(before.ip))
      modifies this
      ensures Valid() && start == old(start) && everExposed == old(everExposed)
      ensures Rest(V()) && Abandoned(old(V()), V(), before, o, f)
    {
      if o.ThawFailed? {
        var _ := UndoSuspended(before, f.begin);
      } else if o.Refused? {
        RestoreRoute(before, f.begin.routeRefused);
      } else {
        ResumeCaptured(before, f.firstResume, f.begin);
      }
    }

    /** Pause from the Stop on. */
    method StopAndRelease(before: Record, f: PauseFaults) returns (r: Outcome, stop: Option<StopOutcome>)
      requires Valid() && rec == Some(before) && before.state == Ready && before.e2b
      requires RestIfUnknown(V()) && Recapturable(V(), before) && Hidden(V()) && !entry.value.process.value.exited
      requires f.begin.digest !in {"", before.source, before.head}
      modifies this
      ensures Valid() && start == old(start) && everExposed == old(everExposed)
      ensures Rest(V()) && stop == Some(f.stop) && r != Err(RuntimeDead)
      ensures r.Ok? <==> Releases(old(entry).value, f)
      ensures if f.stop.StopFailed? then Returned(old(V()), V(), f) else Ends(old(V()), V(), f)
    {
      stop := Some(f.stop);
      Act(SetState(Unknown));
      if f.stop.StopFailed? {
        HandBack(before, f);
        r := Err(Internal);
        StateAside(old(V()), V(), f);
      } else {
        r := ReleaseStopped(before, f);
        StateAside(old(V()), V(), f);
      }
    }

    /** Stop reported an error: the guest is handed back running, unless it has exited. */
    method HandBack(before: Record, f: PauseFaults)
      requires Valid() && rec == Some(before) && before.state == Ready && f.stop.StopFailed?
      requires RestIfUnknown(V()) && Recapturable(V(), before) && Hidden(V()) && entry.value.state == Unknown
      requires !entry.value.process.value.exited
      modifies this
      ensures Valid() && start == old(start) && everExposed == old(everExposed)
      ensures Rest(V()) && Returned(old(V()), V(), f)
    {
      if f.stop.exited { Act(MarkExited); }
      ResumeCaptured(before, f.firstResume, f.begin);
    }

    /** Pause once the VMM is stopped: from here on the newest recovery point is the new capture. */
    method ReleaseStopped(before: Record, f: PauseFaults) returns (r: Outcome)
      requires Valid() && rec == Some(before) && before.e2b && Rest(V())
      requires entry.Some? && entry.value.state == Unknown && entry.value.process.Some? && before.ip != ""
               && entry.value.slot == Some(before.ip)
      requires f.begin.digest !in {"", before.source, before.head}
      modifies this
      ensures Valid() && start == old(start) && everExposed == old(everExposed)
      ensures Rest(V()) && r != Err(RuntimeDead)
      ensures r.Ok? <==>
              !f.sockets && !f.pausedWrite && Cleans(old(entry).value.(process := None), f.cleanup) && !f.leaseDelete
      ensures Ends(old(V()), V(), f)
    {
      Act(MarkExited);
      if f.sockets {
        var _ := SaveRecord(StrandedAt(before, f), f.socketWrite);
        r := Err(Internal);
      } else {
        r := ReleaseGone(before, f);
        GoneAside(old(V()), V(), f);
      }
      EndsRest(old(V()), V(), f);
    }

    /** The release of a stopped VMM whose sockets are gone. */
    method ReleaseGone(before: Record, f: PauseFaults) returns (r: Outcome)
      requires Valid() && rec == Some(before) && before.e2b && pending == 0 && !f.sockets
      requires entry.Some? && entry.value.state == Unknown && entry.value.process.Some?
               && entry.value.process.value.exited
               && entry.value.slot == Some(before.ip)
      requires f.begin.digest !in {"", before.source, before.head}
      modifies this
      ensures Valid() && start == old(start) && everExposed == old(everExposed)
      ensures r != Err(RuntimeDead)
      ensures r.Ok? <==> !f.pausedWrite && Cleans(old(entry).value.(process := None), f.cleanup) && !f.leaseDelete
      ensures Ends(old(V()), V(), f)
    {
      Act(DropProcess);
      var saved := SaveRecord(PausedAt(before, f), f.pausedWrite);
      if saved {
        r := FinishPause(f);
      } else {
        FinishStranded(before, f);
        r := Err(Internal);
      }
    }

    /** The release tail of a committed pause. */
    method FinishPause(f: PauseFaults) returns (r: Outcome)
      requires Valid() && rec.Some? && rec.value.state == Paused && rec.value.e2b
      requires entry.Some? && entry.value.state == Unknown && entry.value.process.None? && pending == 0
      modifies this
      ensures Valid() && start == old(start) && everExposed == old(everExposed)
      ensures r.Ok? <==> Cleans(old(entry).value, f.cleanup) && !f.leaseDelete
      ensures r != Err(RuntimeDead)
      ensures r.Ok? ==> V() == View(old(rec), None, None, None, None, 0, false)
      ensures r.Err? ==> CleanedUp(old(V()), V().(rec := old(rec)), f.cleanup)
                         && rec == Some(if f.failureWrite then old(rec).value else old(rec).value.(state := Unknown))
    {
      var ok := CleanupSandbox(f.cleanup);
      if ok { ok := ReleaseLease(f.leaseDelete); }
      if !ok {
        var _ := SaveRecord(rec.value.(state := Unknown), f.failureWrite);
        return Err(Internal);
      }
      DeleteEntry();
      ReleaseCapacity();
      r := Ok;
    }

    /** The tail after a lost PAUSED write: the UNKNOWN record pins the new head, and the entry, the
        lease and the reservation must go for it to revive. */
    method FinishStranded(before: Record, f: PauseFaults)
      requires Valid() && rec == Some(before) && before.e2b
      requires entry.Some? && entry.value.state == Unknown && entry.value.process.None? && pending == 0
      requires entry.value.slot == Some(before.ip)
      modifies this
      ensures Valid() && start == old(start) && everExposed == old(everExposed)
      ensures f.strandedWrite ==> V() == old(V())
      ensures !f.strandedWrite ==>
              && rec == Some(Recaptured(before, f, Unknown))
              && if Cleans(old(entry).value, f.cleanup) && !f.leaseDelete
                 then V() == View(rec, None, None, None, None, 0, false)
                 else CleanedUp(old(V()), V().(rec := old(rec)), f.cleanup)
    {
      var saved := SaveRecord(StrandedAt(before, f), f.strandedWrite);
      if !saved { return; }
      var ok := CleanupSandbox(f.cleanup);
      if ok { ok := ReleaseLease(f.leaseDelete); }
      if !ok { return; }
      DeleteEntry();
      ReleaseCapacity();
    }

    // -------------------------------------------------------------------------------------------
    // Resume of a paused sandbox
    // -------------------------------------------------------------------------------------------

    /** ResumePaused: boots a PAUSED or stranded record from its checkpoint head; a record that is
        READY under the lock is a joined request. `booted` tells whether this call started a run. */
    method ResumePaused(timeout: int, f: ResumeFaults) returns (r: Outcome, booted: bool)
      requires Valid() && Rest(V()) && f.create.ip != "" && f.create.expiryClock <= f.create.startClock
      modifies this
      ensures Valid() && start == old(start) && everExposed == old(everExposed)
      ensures VerdictStands(old(V()), V()) && Resumed(old(V()), V(), r, booted, timeout, f.create)
      ensures booted <==> timeout > 0 && !f.get && Revives(old(V()), f)
      ensures r.Ok? <==>
              booted || (timeout > 0 && !f.get && old(rec).Some? && old(rec).value.e2b && old(rec).value.state == Ready)
      ensures ResumeEffect(old(V()), V(), timeout, false, f)
      ensures booted ==> image == Some(old(rec).value.head)
    {
      booted := false;
      if timeout <= 0 { return Err(InvalidArgument), false; }
      if f.get || rec.None? { return Err(NotFound), false; }
      if !rec.value.e2b { return Err(NotFound), false; }
      if rec.value.state == Ready { return Ok, false; }
      if !Resumable(rec.value) { return Err(FailedPrecondition), false; }
      r := ResumePausedLocked(timeout, f);
      booted := r.Ok?;
    }

    /** EnsureRunning: wake-on-traffic, for sandboxes created with autoResume. */
    method EnsureRunning(timeout: int, f: ResumeFaults) returns (r: Outcome, booted: bool)
      requires Valid() && Rest(V()) && f.create.ip != "" && f.create.expiryClock <= f.create.startClock
      modifies this
      ensures Valid() && start == old(start) && everExposed == old(everExposed)
      ensures VerdictStands(old(V()), V()) && Resumed(old(V()), V(), r, booted, timeout, f.create)
      ensures booted <==> timeout > 0 && !f.get && Revives(old(V()), f) && old(rec).value.autoResume
      ensures r.Ok? <==>
              booted || (timeout > 0 && !f.get && old(rec).Some? && old(rec).value.e2b && old(rec).value.state == Ready)
      ensures ResumeEffect(old(V()), V(), timeout, true, f)
      ensures booted ==> image == Some(old(rec).value.head)
    {
      booted := false;
      if timeout <= 0 { return Err(InvalidArgument), false; }
      if f.get || rec.None? { return Err(NotFound), false; }
      if !rec.value.e2b { return Err(NotFound), false; }
      if rec.value.state == Ready { return Ok, false; }
      if !Resumable(rec.value) || !rec.value.autoResume { return Err(FailedPrecondition), false; }
      r := ResumePausedLocked(timeout, f);
      booted := r.Ok?;
    }

    /** resumePausedLocked: finishes a stranded release first, then runs the create kernel in place. */
    method ResumePausedLocked(timeout: int, f: ResumeFaults) returns (r: Outcome)
      requires Valid() && Rest(V()) && f.create.ip != "" && f.create.expiryClock <= f.create.startClock
      requires rec.Some? && rec.value.e2b && Resumable(rec.value) && timeout > 0
      modifies this
      ensures Valid() && start == old(start) && everExposed == old(everExposed)
      ensures Rest(V()) && rec.Some? && SameLineage(rec.value, old(rec).value)
      ensures r.Err? ==> Resumable(rec.value)
      ensures r.Ok? <==> Restarts(old(V()), old(rec).value, f)
      ensures r.Ok? ==> IsFreshRun(old(rec).value, V(), timeout, f.create)
      ensures if OthersEntry(old(V())) then V() == old(V())
              else RestartEffect(old(V()), V(), old(rec).value, timeout, f)
      ensures r.Ok? ==> image == Some(old(rec).value.head)
    {
      var ok := FinishStrandedRelease(f);
      if !ok { return Err(AlreadyExists); }
      if f.create.invalid { return Err(InvalidArgument); }
      r := BootFromHead(timeout, f.create);
    }

    /** The E2B prologue and the create kernel on an existing record. */
    method BootFromHead(timeout: int, f: CreateFaults) returns (r: Outcome)
      requires Valid() && Rest(V()) && entry.None? && f.ip != "" && f.expiryClock <= f.startClock
      requires rec.Some? && rec.value.e2b && Resumable(rec.value)
      modifies this
      ensures Valid() && start == old(start) && everExposed == old(everExposed)
      ensures Rest(V()) && rec.Some? && SameLineage(rec.value, old(rec).value)
      ensures r.Err? ==> Resumable(rec.value)
      ensures r.Ok? <==>
              Reserves(old(V()), old(rec).value.cpus, old(rec).value.ramMB, f) && Boots(true, false, false, f)
      ensures r.Ok? ==> IsFreshRun(old(rec).value, V(), timeout, f)
      ensures var v, before := old(V()), old(rec).value;
              if !Reserves(v, before.cpus, before.ramMB, f) then V() == v
              else BootEffect(Reserved(v, before.cpus, before.ramMB, f), V(), true, false, timeout,
                     before.(state := Creating, ip := "", pid := 0), false, f)
      ensures r.Ok? ==> image == Some(old(rec).value.head)
    {
      var record := rec.value;
      var err := Prologue(record.cpus, record.ramMB, f);
      if err.Some? { return Err(err.value); }
      r := CreateLocked(ResumeRequest(record, timeout), Some(record), f);
      HeadBootLeaves(Reserved(old(V()), record.cpus, record.ramMB, f), V(), record, timeout, f);
    }

    /** The leftover entry of a stranded pause is released here; any other held entry belongs to
        another owner. A failed retry leaves the strand as it was. */
    method FinishStrandedRelease(f: ResumeFaults) returns (ok: bool)
      requires Valid() && Rest(V()) && rec.Some? && rec.value.e2b && Resumable(rec.value)
      modifies this
      ensures Valid() && start == old(start) && everExposed == old(everExposed)
      ensures Rest(V()) && ok == Unblocked(old(V()), f)
      ensures ok ==> V() == Freed(old(V()))
      ensures !ok ==> if OthersEntry(old(V())) then V() == old(V()) else CleanedUp(old(V()), V(), f.cleanup)
    {
      if entry.None? { return true; }
      if (rec.value.state != Paused && rec.value.state != Unknown) || entry.value.state != Unknown { return false; }
      ok := CleanupSandbox(f.cleanup);
      if !ok { return; }
      ok := ReleaseLease(f.leaseDelete);
      if !ok { return; }
      DeleteEntry();
      ReleaseCapacity();
    }

    // -------------------------------------------------------------------------------------------
    // Any operation
    // -------------------------------------------------------------------------------------------

    /** Whatever operation holds the lock and whatever fails, the sandbox is at rest afterwards, a
        deletion verdict stands, no running record outlives the cap of its requests, and a guest
        frozen by a capture becomes reachable only through a checkpoint of an UNKNOWN sandbox. */
    method Perform(op: Operation)
      requires Valid() && Rest(V()) && Admissible(op, V())
      modifies this
      ensures Valid() && start == old(start)
      ensures Rest(V()) && VerdictStands(old(V()), V())
      ensures forall cap :: WithinLifetime(old(V()), cap) && Capped(op, cap) ==> WithinLifetime(V(), cap)
      ensures everExposed <==> old(everExposed) || ExposesFrozen(op, old(V()))
      ensures Effect(op, old(V()), V())
    {
      match op
      case OpCreate(_, _) => Start(op);
      case OpResume(_, _) => Start(op);
      case OpWake(_, _) => Start(op);
      case OpDelete(f) => var _ := Delete(f);
      case OpChangeState(s, a, b, c, d) => var _ := ChangeState(s, a, b, c, d);
      case OpUpdateNetwork(n, a, b, c, d, e, g) => var _ := UpdateNetwork(n, a, b, c, d, e, g);
      case OpCheckpoint(f) => var _ := Checkpoint(f);
      case OpPause(t, f) => var _, _ := Pause(t, f);
      case OpTtl(q, a, b, c, d) => var _ := ApplyTTL(q, a, b, c, d);
      case OpExpire(t, f) => var _ := Expire(t, f);
      case OpExit(g, f) => HandleExit(g, f);
    }

    /** The operations that start a run. */
    method Start(op: Operation)
      requires op.OpCreate? || op.OpResume? || op.OpWake?
      requires Valid() && Rest(V()) && Admissible(op, V())
      modifies this
      ensures Valid() && start == old(start) && everExposed == old(everExposed)
      ensures Rest(V()) && VerdictStands(old(V()), V())
      ensures forall cap :: WithinLifetime(old(V()), cap) && Capped(op, cap) ==> WithinLifetime(V(), cap)
      ensures Effect(op, old(V()), V())
    {
      match op
      case OpCreate(q, f) => var _ := Create(q, f);
      case OpResume(t, f) => var _, _ := ResumePaused(t, f);
      case OpWake(t, f) => var _, _ := EnsureRunning(t, f);
    }

    /** The expiry tick for a listed record (RunExpiry): a pause-action sandbox is paused, and deleted
        if its runtime is dead; any other is deleted. A deadline that moved past the tick before the
        lock was taken wins. */
    method ExpiryTick(now: int, pauseAction: bool, p: PauseFaults, e: ExpireFaults)
      requires Valid() && Rest(V())
      requires rec.Some? ==> p.begin.digest !in {"", rec.value.source, rec.value.head}
      modifies this
      ensures Valid() && start == old(start) && everExposed == old(everExposed)
      ensures Rest(V()) && VerdictStands(old(V()), V()) && DeadlineKept(old(V()), V())
      ensures if !ExpiryApplies(old(V()), Some(now)) then V() == old(V())
              else if !pauseAction then ExpireEffect(old(V()), V(), Some(now), e)
              else if InService(old(V())) then PauseEffect(old(V()), V(), Some(now), p)
              else if p.begin.get then V() == old(V())
              else ExpireEffect(old(V()), V(), Some(now), e)
    {
      if pauseAction {
        var r, _ := Pause(Some(now), p);
        if r == Err(RuntimeDead) {
          var _ := Expire(Some(now), e);
        }
      } else {
        var _ := Expire(Some(now), e);
      }
    }
  }

  datatype Operation =
    | OpCreate(request: CreateRequest, createFaults: CreateFaults)
    | OpDelete(deleteFaults: DeleteFaults)
    | OpChangeState(suspend: bool, getFails: bool, vmmFails: bool, writeFails: bool, routeRefused: bool)
    | OpUpdateNetwork(network: string, get: bool, write: bool, apply: bool, rollback: bool, suspendFails: bool,
        rollbackWrite: bool)
    | OpCheckpoint(checkpointFaults: CheckpointFaults)
    | OpPause(expiredBefore: Option<int>, pauseFaults: PauseFaults)
    | OpResume(timeout: int, resumeFaults: ResumeFaults)
    | OpWake(timeout: int, resumeFaults: ResumeFaults)
    | OpTtl(ttl: TtlRequest, getFails: bool, writeFails: bool, checkClock: int, deadlineClock: int)
    | OpExpire(expiredBefore: Option<int>, expireFaults: ExpireFaults)
    | OpExit(gen: nat, exitFaults: ExitFaults)

  /** The environment assumptions: the clock does not go backwards, the pool hands out an address,
      and a published checkpoint has a digest of its own. */
  predicate Admissible(op: Operation, v: View) {
    match op
    case OpCreate(_, f) => f.ip != "" && f.expiryClock <= f.startClock
    case OpResume(_, f) => f.create.ip != "" && f.create.expiryClock <= f.create.startClock
    case OpWake(_, f) => f.create.ip != "" && f.create.expiryClock <= f.create.startClock
    case OpCheckpoint(f) => f.digest != ""
    case OpPause(_, f) => v.rec.Some? ==> f.begin.digest !in {"", v.rec.value.source, v.rec.value.head}
    case OpTtl(_, _, _, c, d) => c <= d
    case _ => true
  }

  /** The lifetimes an operation asks for stay within the cap, as the E2B API makes sure. */
  predicate Capped(op: Operation, cap: int) {
    match op
    case OpCreate(q, _) => q.timeout <= cap
    case OpResume(t, _) => t <= cap
    case OpWake(t, _) => t <= cap
    case OpTtl(q, _, _, _, _) => 0 < q.maxLifetime <= cap
    case _ => true
  }

  /** What each operation makes of the sandbox. */
  predicate Effect(op: Operation, v: View, u: View)
    requires v.entry.Some? ==> v.rec.Some?
  {
    match op
    case OpCreate(q, f) => CreateEffect(v, u, q, f)
    case OpDelete(f) => DeleteEffect(v, u, f)
    case OpChangeState(s, get, vmm, write, refused) => ChangeEffect(v, u, s, get, vmm, write, refused)
    case OpUpdateNetwork(n, get, write, apply, rollback, suspend, lost) =>
      NetworkEffect(v, u, n, get, write, apply, rollback, suspend, lost)
    case OpCheckpoint(f) => CheckpointEffect(v, u, f)
    case OpPause(t, f) => PauseEffect(v, u, t, f)
    case OpResume(t, f) => ResumeEffect(v, u, t, false, f)
    case OpWake(t, f) => ResumeEffect(v, u, t, true, f)
    case OpTtl(q, get, write, c, d) => TtlEffect(v, u, q, get, write, c, d)
    case OpExpire(t, f) => ExpireEffect(v, u, t, f)
    case OpExit(g, f) => ExitEffect(v, u, g, f)
  }

  predicate ExposesFrozen(op: Operation, v: View) {
    op.OpCheckpoint? && RepublishesFrozen(v) && !op.checkpointFaults.get && !op.checkpointFaults.routeRefused
  }

  /** The entry holds a process and the slot its record names. */
  predicate Captureable(v: View) {
    && v.rec.Some? && v.rec.value.ip != "" && Running(v.rec.value.state)
    && v.entry.Some? && v.entry.value.process.Some? && !v.entry.value.process.value.exited
    && v.entry.value.slot == Some(v.rec.value.ip)
  }

  /** The same for a process that may have exited, under the record the operation read. */
  predicate Recapturable(v: View, r: Record) {
    && v.rec.Some? && v.rec.value == r.(state := v.rec.value.state) && Running(v.rec.value.state) && r.ip != ""
    && v.entry.Some? && v.entry.value.process.Some? && v.entry.value.slot == Some(r.ip)
  }

  /** The record a pause commits: PAUSED on the new head, without a runtime. */
  function PausedAt(r: Record, f: PauseFaults): Record {
    r.(state := Paused, ip := "", pid := 0, expiresAt := 0,
       head := f.begin.digest, headStartedAt := r.startedAt, headCreatedAt := f.clock)
  }

  /** The record a pause strands: UNKNOWN on the new head, with the view of the stopped run. */
  function StrandedAt(r: Record, f: PauseFaults): Record {
    r.(state := Unknown, head := f.begin.digest, headStartedAt := r.startedAt, headCreatedAt := f.clock)
  }

  function ResumeRequest(r: Record, timeout: int): CreateRequest {
    CreateRequest(true, r.head, r.cpus, r.ramMB, r.network, r.autoResume, timeout, false)
  }

  /** A boot of a record starts a fresh run of it, or leaves it resumable. */
  lemma HeadBootLeaves(v: View, u: View, before: Record, timeout: int, f: CreateFaults)
    requires v.rec == Some(before) && v.entry.None? && before.e2b && Resumable(before) && WellFormed(before)
    requires v.resv == Some(Alloc(before.cpus, before.ramMB)) && v.route == Some(RouteSlot("", f.lifetime))
    requires v.cid.None? && v.pending == 0 && f.ip != "" && f.expiryClock <= f.startClock
    requires BootEffect(v, u, true, false, timeout, before.(state := Creating, ip := "", pid := 0), false, f)
    ensures u.rec.Some? && SameLineage(u.rec.value, before)
    ensures if Boots(true, false, false, f) then IsFreshRun(before, u, timeout, f) else Resumable(u.rec.value)
  {
  }

  /** A run booted from a checkpoint: READY with a new deadline, everything a running sandbox needs,
      and the checkpoint it came from still its head. */
  predicate IsFreshRun(before: Record, u: View, timeout: int, f: CreateFaults) {
    && u.rec.Some? && u.entry.Some? && u.entry.value.state == Ready
    && u.resv == Some(Alloc(before.cpus, before.ramMB))
    && u.route == Some(RouteSlot(f.ip, f.lifetime))
    && u.rec.value == before.(state := Ready, ip := f.ip, pid := f.pid, ramMB := f.bootRam,
                              startedAt := f.startClock, expiresAt := f.expiryClock + timeout)
  }

  /** What a resume or a wake does. A READY sandbox is joined and left alone; a failed call leaves a
      resumable sandbox resumable at the same checkpoint; a successful one boots it from there. */
  predicate Resumed(v: View, u: View, r: Outcome, booted: bool, timeout: int, f: CreateFaults) {
    && Rest(u)
    && (v.rec.None? || !v.rec.value.e2b || !Resumable(v.rec.value) ==> u == v && !booted)
    && (v.rec.Some? && v.rec.value.e2b && v.rec.value.state == Ready ==> u == v)
    && (!booted && v.rec.Some? && v.rec.value.e2b && Resumable(v.rec.value) ==>
          r.Err? && u.rec.Some? && Resumable(u.rec.value) && SameLineage(u.rec.value, v.rec.value))
    && (booted ==>
         r.Ok? && v.rec.Some? && timeout > 0 && Resumable(v.rec.value) && IsFreshRun(v.rec.value, u, timeout, f))
  }

  /** Why a create is turned down before it touches the sandbox. */
  function CreateRefusal(v: View, q: CreateRequest, f: CreateFaults): Option<ErrorKind> {
    if f.invalid || q.template == "" || (q.e2b && q.timeout <= 0) then Some(InvalidArgument)
    else if v.entry.Some? then Some(AlreadyExists) else None
  }

  /** What a deletion leaves of a sandbox that the other operations rely on. */
  lemma DeleteLeaves(v: View, u: View, f: DeleteFaults)
    requires Rest(v) && DeleteEffect(v, u, f)
    ensures Rest(u) && VerdictStands(v, u) && DeadlineKept(v, u)
  {
  }

  /** What a checkpoint leaves of a sandbox that the other operations rely on. */
  lemma CheckpointLeaves(v: View, u: View, f: CheckpointFaults)
    requires Rest(v) && f.digest != "" && CheckpointEffect(v, u, f)
    ensures VerdictStands(v, u) && DeadlineKept(v, u) && u.rec.Some? == v.rec.Some?
    ensures !f.get && !f.routeRefused && !StaysFrozen(v, f) && v.entry.Some? && v.route.Some?
            && v.rec.value.ip != "" ==>
            u.route.Some? && u.route.value.ip == v.rec.value.ip
  {
  }

  /** What a create leaves of a sandbox that the other operations rely on. */
  lemma CreateLeaves(v: View, u: View, q: CreateRequest, f: CreateFaults)
    requires Rest(v) && f.ip != "" && f.expiryClock <= f.startClock && CreateEffect(v, u, q, f)
    ensures VerdictStands(v, u)
    ensures v.rec.Some? ==> u.rec == v.rec
    ensures forall cap :: WithinLifetime(v, cap) && q.timeout <= cap ==> WithinLifetime(u, cap)
  {
    if v.rec.Some? { CreateKeepsRecord(v, u, q, f); } else { CreateWithinTimeout(v, u, q, f); }
  }

  lemma CreateWithinTimeout(v: View, u: View, q: CreateRequest, f: CreateFaults)
    requires Rest(v) && v.rec.None? && f.expiryClock <= f.startClock && CreateEffect(v, u, q, f)
    ensures WithinLifetime(u, q.timeout)
  {
  }

  lemma CreateKeepsRecord(v: View, u: View, q: CreateRequest, f: CreateFaults)
    requires Rest(v) && v.rec.Some? && CreateEffect(v, u, q, f)
    ensures u.rec == v.rec
  {
  }

  predicate Creates(v: View, q: CreateRequest, f: CreateFaults) {
    && !f.invalid && q.template != "" && v.entry.None? && Boots(q.e2b, q.volumes, v.rec.Some?, f)
    && (q.e2b ==> q.timeout > 0 && Reserves(v, q.cpus, q.ramMB, f))
  }

  /** What becomes of a captured guest, and of its hidden route, when Stop reports an error. */
  predicate Returned(v: View, u: View, f: PauseFaults)
    requires v.entry.Some? && v.rec.Some? && f.stop.StopFailed?
  {
    var back := !f.stop.exited && (!f.firstResume || !f.begin.undoResume);
    var e, r := v.entry.value, v.rec.value;
    u == v.(entry := Some(if back then WithFreeze(e, Thawed).(state := Ready) else Ended(e, f.stop.exited)),
            rec := Some(if back || f.begin.undoWrite then r else r.(state := Unknown)),
            route := if back && !f.begin.routeRefused
                && v.route.Some? then Some(v.route.value.(ip := r.ip)) else v.route)
  }

  /** Whether the exit is marked first makes no difference once the process is dropped. */
  lemma GoneAside(v: View, u: View, f: PauseFaults)
    requires v.rec.Some? && v.entry.Some? && v.entry.value.process.Some? && v.entry.value.state == Unknown && !f.sockets
    requires Ends(v.(entry := Some(Ended(v.entry.value, true))), u, f)
    ensures Ends(v, u, f)
  {
    var w := v.(entry := Some(Ended(v.entry.value, true)));
    assert w.entry.value.(state := Unknown, process := None) == v.entry.value.(state := Unknown, process := None);
  }

  /** However a pause ends, the sandbox is at rest. */
  lemma EndsRest(v: View, u: View, f: PauseFaults)
    requires v.rec.Some? && v.rec.value.e2b && v.entry.Some? && v.entry.value.state == Unknown && Rest(v)
             && Ends(v, u, f)
    requires v.rec.value.ip != "" && v.entry.value.slot == Some(v.rec.value.ip)
    requires f.begin.digest !in {"", v.rec.value.source, v.rec.value.head}
    ensures Rest(u)
  {
  }

  /** What WithdrawAndBegin leaves. */
  predicate AfterCapture(v: View, mid: View, leavePaused: bool, o: BeginOutcome, f: CheckpointFaults)
    requires v.rec.Some? && v.entry.Some?
  {
    var e := v.entry.value;
    && (o.ThawFailed? <==> ThawLost(e, leavePaused, f))
    && (o.Begun? <==> Begins(e, leavePaused, f))
    && (o.FailedAfterCapture? <==> leavePaused && f.publish && CaptureHeld(e, leavePaused, f))
    && mid == v.(rec := Some(if o.ThawFailed? then FrozenRecord(v.rec.value, f) else v.rec.value),
                 entry := Some(if !Freezes(e, f) then e
                               else if o.ThawFailed? then WithFreeze(e, ByCapture).(state := Suspended)
                               else if leavePaused && !o.Refused? then WithFreeze(e, ByCapture)
                               else WithFreeze(e, Thawed)),
                 route := mid.route)
    && Unserved(v, mid, f.lifetime)
  }

  /** What AbandonPause makes of that. */
  predicate Abandoned(mid: View, u: View, before: Record, o: BeginOutcome, f: PauseFaults)
    requires mid.rec.Some? && mid.entry.Some?
  {
    var back := if o.ThawFailed? then !f.begin.undoResume else o.Refused? || !f.firstResume || !f.begin.undoResume;
    u == mid.(entry := Some(if o.Refused? then mid.entry.value
                            else if back then WithFreeze(mid.entry.value, Thawed).(state := Ready)
                            else mid.entry.value.(state := Unknown)),
              rec := if o.Refused? || f.begin.undoWrite then mid.rec
                     else if o.ThawFailed? || !back then Some(before.(state := if back then Ready else Unknown))
                     else mid.rec,
              route := if back && !f.begin.routeRefused && mid.route.Some? then Some(mid.route.value.(ip := before.ip))
                       else mid.route)
  }

  lemma GivenUpIs(v: View, mid: View, u: View, o: BeginOutcome, f: PauseFaults)
    requires v.rec.Some? && v.entry.Some? && v.rec.value.state == Ready && v.rec.value.ip != ""
             && !(o.Begun? && !f.labels)
    requires AfterCapture(v, mid, true, o, f.begin) && Abandoned(mid, u, v.rec.value, o, f)
    ensures PauseGivenUp(v, u, f)
  {
  }

  /** What Reopen makes of it after the capture of a checkpoint. */
  predicate Reopened(mid: View, u: View, before: Record, o: BeginOutcome, f: CheckpointFaults)
    requires mid.rec.Some? && mid.entry.Some?
  {
    var hidden := o.ThawFailed? && f.undoResume;
    u == mid.(entry := Some(if !o.ThawFailed? then mid.entry.value
                            else if hidden then mid.entry.value.(state := Unknown)
                            else WithFreeze(mid.entry.value, Thawed).(state := Ready)),
              rec := if !o.ThawFailed? || f.undoWrite then mid.rec
                     else Some(before.(state := if hidden then Unknown else Ready)),
              route := if hidden || f.routeRefused || before.ip == "" || mid.route.None? then mid.route
                       else Some(mid.route.value.(ip := before.ip)))
  }

  lemma CaptureIsOver(v: View, mid: View, u: View, o: BeginOutcome, f: CheckpointFaults)
    requires v.rec.Some? && v.entry.Some?
    requires AfterCapture(v, mid, false, o, f) && Reopened(mid, u, v.rec.value, o, f)
    ensures CaptureOver(v, u, f)
  {
  }

  /** A checkpoint publishes a guest frozen by an earlier capture, and no other frozen one. */
  lemma ExposureIs(v: View, mid: View, u: View, o: BeginOutcome, f: CheckpointFaults)
    requires Rest(v) && v.rec.Some? && v.entry.Some?
    requires AfterCapture(v, mid, false, o, f) && Reopened(mid, u, v.rec.value, o, f)
    ensures !o.ThawFailed? && Exposed(u) <==> RepublishesFrozen(v) && !f.routeRefused
  {
  }

  lemma CleanedAside(v: View, u: View, f: CleanupFaults)
    requires v.entry.Some? && CleanedUp(v, u, f)
    ensures u.entry.Some? && CleanedUp(Degraded(v), u.(entry := Some(u.entry.value.(state := Unknown))), f)
  {
  }

  /** Taking the entry out of service first makes no difference to what becomes of it. */
  lemma StateAside(v: View, u: View, f: PauseFaults)
    requires v.rec.Some? && v.entry.Some?
    ensures var w := v.(entry := Some(v.entry.value.(state := Unknown)));
            if f.stop.StopFailed? then Returned(w, u, f) ==> Returned(v, u, f) else Ends(w, u, f) ==> Ends(v, u, f)
  {
  }

  lemma ReturnedHandsBack(v: View, u: View, f: PauseFaults)
    requires v.rec.Some? && v.entry.Some? && f.stop.StopFailed? && Returned(HeldFor(v, f), u, f)
    ensures HandedBack(v, u, f.stop.exited, f)
  {
  }

  /** Why a pause is turned down before it touches the sandbox. */
  function PauseRefusal(v: View, expiredBefore: Option<int>, f: PauseFaults): (r: Option<ErrorKind>)
    ensures r.None? <==> PauseApplies(v, expiredBefore, f)
    ensures r == Some(RuntimeDead) <==> !f.begin.get && ExpiryApplies(v, expiredBefore) && !InService(v)
  {
    if f.begin.get || v.rec.None? || !v.rec.value.e2b then Some(NotFound)
    else if v.rec.value.state != Ready || StillAlive(v.rec.value, expiredBefore) then Some(FailedPrecondition)
    else if !InService(v) then Some(RuntimeDead) else None
  }

  /** What a pause leaves of a sandbox that the other operations rely on. */
  lemma PauseLeaves(v: View, u: View, expiredBefore: Option<int>, f: PauseFaults)
    requires Rest(v) && PauseEffect(v, u, expiredBefore, f)
    requires v.rec.Some? ==> f.begin.digest !in {"", v.rec.value.source, v.rec.value.head}
    ensures VerdictStands(v, u) && DeadlineKept(v, u) && u.rec.Some? == v.rec.Some?
    ensures var stop := if StopReached(v, expiredBefore, f) then Some(f.stop) else None;
            && (stop == Some(Stopped) && u.rec != v.rec ==>
                 u.rec.value.head == f.begin.digest && Resumable(u.rec.value))
            && (stop != Some(Stopped) && u.rec.Some? ==> SameLineage(u.rec.value, v.rec.value))
            && (stop == Some(StopFailed(true)) ==>
                  && u.entry.Some? && u.entry.value.state == Unknown && u.entry.value.process.Some?
                  && u.entry.value.process.value.exited
                  && (f.begin.undoWrite || u.rec.value.state == Unknown)
                  && (f.begin.undoWrite || (Resumable(u.rec.value) <==> v.rec.value.head != v.rec.value.source)))
  {
    if PauseApplies(v, expiredBefore, f) && StopReached(v, expiredBefore, f) && f.stop.Stopped? {
      EndsLeave(HeldFor(v, f), u, f);
    }
  }

  lemma EndsLeave(v: View, u: View, f: PauseFaults)
    requires v.rec.Some? && v.entry.Some? && v.rec.value.state == Ready && v.rec.value.e2b && Ends(v, u, f)
    requires f.begin.digest !in {"", v.rec.value.source, v.rec.value.head}
    ensures u.rec == v.rec
            || (u.rec.Some? && u.rec.value.head == f.begin.digest && Resumable(u.rec.value)
               && !Running(u.rec.value.state))
  {
  }

  /** From the Stop on, everything goes right. */
  predicate Releases(e: Entry, f: PauseFaults) {
    f.stop.Stopped? && !f.sockets && !f.pausedWrite && Cleans(e.(process := None), f.cleanup) && !f.leaseDelete
  }

  /** Why a TTL request is turned down before it touches the deadline. */
  function TtlRefusal(v: View, q: TtlRequest, getFails: bool, now: int): (r: Option<ErrorKind>)
    ensures r.None? <==> TtlApplies(v, q, getFails, now)
  {
    if getFails || v.rec.None? || !v.rec.value.e2b then Some(NotFound)
    else if v.rec.value.state != Ready then Some(FailedPrecondition)
    else if q.maxLifetime > 0 && now - v.rec.value.startedAt > q.maxLifetime then Some(InvalidArgument)
    else None
  }

  /** The request moves the deadline. */
  predicate TtlMoves(r: Record, q: TtlRequest, now: int) {
    q.extendOnly ==> q.ttl > 0 && r.expiresAt < NewDeadline(q, r.startedAt, now)
  }

  /** The sandbox was left UNKNOWN and frozen by an earlier capture, and its route can come back. */
  predicate RepublishesFrozen(v: View) {
    v.entry.Some? && v.entry.value.state == Unknown && FrozenByCapture(v) && v.route.Some? && v.rec.Some?
        && v.rec.value.ip != ""
  }

  /** A checkpoint of a READY sandbox that leaves the guest frozen: neither the capture nor the undo
      can resume the VMM. */
  predicate StaysFrozen(v: View, f: CheckpointFaults) {
    v.entry.Some? && ThawLost(v.entry.value, false, f) && f.undoResume
  }

  /** The sequential clamping of ApplyTTL. */
  method ClampDeadline(q: TtlRequest, startedAt: int, now: int) returns (deadline: int)
    ensures deadline == NewDeadline(q, startedAt, now)
  {
    deadline := now;
    if q.ttl > 0 { deadline := deadline + q.ttl; }
    if q.maxLifetime > 0 {
      var capped := startedAt + q.maxLifetime;
      if deadline > capped { deadline := capped; }
    }
  }

  /** The CREATING record of a fresh sandbox: its head is its template. */
  function FreshRecord(q: CreateRequest): Record {
    Record(Creating, q.e2b, q.template, q.template, "", 0, q.cpus, q.ramMB, q.network, q.autoResume, 0, 0, 0, 0)
  }

  /** The CREATING record a boot starts from: an in-place resume keeps its checkpoint head. */
  function CreatingRecord(q: CreateRequest, resume: Option<Record>): Record {
    if resume.None? then FreshRecord(q) else resume.value.(state := Creating, ip := "", pid := 0)
  }

  /** Two records of one sandbox at the same checkpoint. */
  predicate SameLineage(r: Record, s: Record) {
    r.source == s.source && r.head == s.head && r.e2b == s.e2b && r.headStartedAt == s.headStartedAt
  }

  /** The entry of a guest that runs. */
  function RunningEntry(q: CreateRequest, f: CreateFaults): Entry {
    Entry(Ready, f.gen, Some(Process(f.vmm, false, Thawed)), Some(f.ip), if f.metered then f.bootRam else 0, q.volumes)
  }

  /** The same view while the boot is still going on. */
  function Booting(v: View): View {
    if v.entry.Some? then v.(entry := Some(v.entry.value.(state := Creating))) else v
  }

  /** The record after a confirmed rollback: what was resumed is PAUSED again, what was new is gone. */
  function Finalized(stored: Option<Record>, z: Record, f: FinalFaults): Option<Record> {
    if f.terminalWrite then (if f.unknownWrite then stored else Some(UnknownAfterRelease(z, false)))
    else if RecoverableLineage(z) then Some(PausedRecord(z)) else None
  }

  /** What the rollback of a boot with a stored record leaves. */
  predicate RolledBack(w: View, u: View, record: Record, leased: bool, f: CreateFaults)
    requires w.entry.Some? && w.rec.Some?
  {
    if !Cleans(w.entry.value, f.cleanup) || (leased && f.leaseDelete) then
      && CleanedUp(w, u.(rec := w.rec), f.cleanup)
      && u.rec == if f.final.unknownWrite then w.rec else Some(record.(state := Unknown))
    else
      u == View(Finalized(w.rec, record, f.final), None, if record.e2b then None
          else w.resv, None, None, w.pending, !leased && w.lease)
  }

  lemma BootedIsEffect(v: View, u: View, q: CreateRequest, r: Record, f: CreateFaults)
    requires Boots(q.e2b, q.volumes, false, f) && (q.e2b ==> v.route.Some?)
    requires u == v.(rec := Some(r.(state := Ready, ip := f.ip, pid := f.pid, ramMB := f.bootRam,
                   startedAt := f.startClock,
                                    expiresAt := if q.e2b then f.expiryClock + q.timeout else r.expiresAt)),
                     entry := Some(RunningEntry(q, f)), cid := Some(f.cid), lease := f.leaseDelete,
                     route := if q.e2b then Some(v.route.value.(ip := f.ip)) else v.route)
    ensures BootEffect(v, u, q.e2b, q.volumes, q.timeout, r, false, f)
  {
  }

  /** The rollback, with or without a record of this boot. */
  lemma UndoneIsEffect(v: View, u: View, q: CreateRequest, resume: Option<Record>, record: Record, f: CreateFaults)
    requires var taken := resume.None? && v.rec.Some?; !Boots(q.e2b, q.volumes, taken, f)
    requires v.entry.None? && (resume.Some? ==> resume.value.e2b == q.e2b)
    requires var taken, r := resume.None? && v.rec.Some?, CreatingRecord(q, resume);
             if f.creatingWrite || taken then
               u == v.(resv := if q.e2b then None else v.resv, route := if f.cleanup.ctxDone then v.route else None)
             else
               && record.(state := Unknown) == HalfRecord(r, q.e2b, q.volumes, q.timeout, f).(state := Unknown)
               && RolledBack(HalfView(v, r, q.e2b, q.volumes, f), u, record, !f.leaseCreate, f)
    ensures BootEffect(v, u, q.e2b, q.volumes, q.timeout, CreatingRecord(q, resume), resume.None? && v.rec.Some?, f)
  {
    if !f.creatingWrite && !(resume.None? && v.rec.Some?) {
      RolledBackIsEffect(v, u, q, CreatingRecord(q, resume), record, f);
    }
  }

  lemma RolledBackIsEffect(v: View, u: View, q: CreateRequest, r: Record, record: Record, f: CreateFaults)
    requires !Boots(q.e2b, q.volumes, false, f) && !f.creatingWrite && r.e2b == q.e2b
    requires record.(state := Unknown) == HalfRecord(r, q.e2b, q.volumes, q.timeout, f).(state := Unknown)
    requires RolledBack(HalfView(v, r, q.e2b, q.volumes, f), u, record, !f.leaseCreate, f)
    ensures BootEffect(v, u, q.e2b, q.volumes, q.timeout, r, false, f)
  {
    var z := HalfRecord(r, q.e2b, q.volumes, q.timeout, f);
    assert z == record.(state := z.state);
  }

  /** The create kernel leaves the sandbox at rest. */
  lemma BootRests(v: View, u: View, q: CreateRequest, resume: Option<Record>, f: CreateFaults)
    requires v.entry.None? && q.template != "" && f.ip != "" && Rest(v.(resv := if q.e2b then None else v.resv))
    requires q.e2b ==> v.resv.Some? && v.route.Some?
    requires resume.Some? ==> v.rec == resume && q.e2b && resume.value.e2b && Resumable(resume.value)
    requires BootEffect(v, u, q.e2b, q.volumes, q.timeout, CreatingRecord(q, resume), resume.None? && v.rec.Some?, f)
    ensures Rest(u)
  {
    var taken, r := resume.None? && v.rec.Some?, CreatingRecord(q, resume);
    if !Boots(q.e2b, q.volumes, taken, f) && !taken && !f.creatingWrite {
      HalfRests(HalfView(v, r, q.e2b, q.volumes, f), u, v, q, r, f);
    }
  }

  /** So does the rollback. */
  lemma HalfRests(w: View, u: View, v: View, q: CreateRequest, r: Record, f: CreateFaults)
    requires w == HalfView(v, r, q.e2b, q.volumes, f) && f.ip != "" && r.e2b == q.e2b && WellFormed(r) && r.ip == ""
             && v.pending == 0
    requires r.state == Creating && (q.e2b ==> v.resv.Some?) && (!q.e2b ==> v.resv.None?) && v.cid.None? && Hidden(v)
    requires !Boots(q.e2b, q.volumes, false, f) && !f.creatingWrite
    requires BootEffect(v, u, q.e2b, q.volumes, q.timeout, r, false, f)
    ensures Rest(u)
  {
  }
}
