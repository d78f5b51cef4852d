/** What the lifecycle manager promises about one sandbox whenever its lock is free, and the
    records of which external calls of an operation fail. */
module Lifecycle {
  import opened Domain
  import opened RouteRegistry
  import opened World

  /** A non-PAUSED record that still carries a resumable checkpoint lineage. */
  predicate StrandedResume(r: Record) {
    r.e2b && (r.state == Unknown || r.state == Creating) && r.head != "" && r.head != r.source
  }

  /** The gate of ResumePaused and of wake-on-traffic. */
  predicate Resumable(r: Record) { r.state == Paused || StrandedResume(r) }

  /** A released runtime leaves a resumable record behind. */
  predicate RecoverableLineage(r: Record) { r.e2b && r.head != "" && r.head != r.source }

  /** The persisted verdict of a failed deletion: UNKNOWN with the lineage cleared. */
  predicate Doomed(v: View) {
    v.rec.Some? && v.rec.value.state == Unknown && v.rec.value.head == v.rec.value.source
  }

  predicate Running(s: State) { s == Ready || s == Suspended }

  /** A runtime that can be suspended, resumed or captured: it has a live process handle that no
      capture left frozen, and holds the network slot its record names. */
  predicate Operable(e: Entry, r: Record) {
    && e.process.Some? && !e.process.value.exited && e.process.value.freeze != ByCapture
    && r.ip != "" && e.slot == Some(r.ip)
    && Running(r.state)
  }

  /** The ownership invariant of a sandbox between operations. */
  predicate Rest(v: View) {
    // every runtime entry has a stored record, and every E2B entry a capacity reservation
    && (v.entry.Some? ==> v.rec.Some? && (v.rec.value.e2b ==> v.resv.Some?))
    // every reservation belongs to a stored E2B record
    && (v.resv.Some? ==> v.rec.Some? && v.rec.value.e2b)
    // a resumable record without a runtime holds no quota
    && (v.entry.None? && v.rec.Some? && Resumable(v.rec.value) ==> v.resv.None?)
    // an entry is READY, SUSPENDED or UNKNOWN; one that claims to run has all it needs
    && (v.entry.Some? ==> v.entry.value.state != Creating && v.entry.value.state != Paused)
    && (v.entry.Some? && Running(v.entry.value.state) ==> Operable(v.entry.value, v.rec.value))
    // a route slot can only be republished with the address the entry holds
    && (v.entry.Some? && v.route.Some? && v.rec.value.ip != "" ==> v.entry.value.slot == Some(v.rec.value.ip))
    // without an entry nothing of the runtime is left
    && (v.entry.None? ==> v.cid.None? && Hidden(v))
    && v.pending == 0
    && (v.rec.Some? ==> WellFormed(v.rec.value))
  }

  /** Everything Rest asks except that the entry's claim to run be true. */
  predicate RestIfUnknown(v: View) {
    v.entry.Some? && Rest(v.(entry := Some(v.entry.value.(state := Unknown))))
  }

  /** A stored record names its source and head, and a PAUSED one a checkpoint past its source. */
  predicate WellFormed(r: Record) {
    r.head != "" && r.source != "" && (r.state == Paused ==> r.e2b && r.head != r.source)
  }

  /** The total-lifetime cap of an E2B run. */
  predicate WithinLifetime(v: View, cap: int) {
    v.rec.Some? && Running(v.rec.value.state) && v.rec.value.e2b ==>
        v.rec.value.expiresAt <= v.rec.value.startedAt + cap
  }

  /** A checkpoint capture froze the running guest and nobody has resumed it. */
  predicate FrozenByCapture(v: View) {
    && v.entry.Some? && v.entry.value.process.Some?
    && v.entry.value.process.value.freeze == ByCapture && !v.entry.value.process.value.exited
  }

  /** A guest that a checkpoint capture froze is visible to the proxy. */
  predicate Exposed(v: View) { !Hidden(v) && FrozenByCapture(v) }

  /** No new run starts: a running record keeps the start and the deadline it had. */
  predicate DeadlineKept(v: View, u: View) {
    u.rec.Some? && Running(u.rec.value.state) ==>
      && v.rec.Some? && Running(v.rec.value.state) && u.rec.value.e2b == v.rec.value.e2b
      && u.rec.value.expiresAt == v.rec.value.expiresAt && u.rec.value.startedAt == v.rec.value.startedAt
  }

  /** The persisted deletion verdict stands, or the record is gone. */
  predicate VerdictStands(v: View, u: View) { Doomed(v) ==> Doomed(u) || u.rec.None? }

  // ---------------------------------------------------------------------------------------------
  // Requests
  // ---------------------------------------------------------------------------------------------

  datatype CreateRequest = CreateRequest(
    e2b: bool, template: Digest, cpus: int, ramMB: int, network: string, autoResume: bool, timeout: int, volumes: bool)

  datatype TtlRequest = TtlRequest(ttl: int, extendOnly: bool, maxLifetime: int)

  // ---------------------------------------------------------------------------------------------
  // Which external calls of an operation fail, and what the successful ones return
  // ---------------------------------------------------------------------------------------------

  /** Stop may report an error although the process exited (a failed API shutdown before a
      successful SIGTERM). */
  datatype StopOutcome = Stopped | StopFailed(exited: bool)

  /** A failed pool release keeps the slot with the caller, with or without its CNI address. */
  datatype PoolOutcome = SlotReturned | SlotKept | SlotKeptWithoutIp

  datatype CleanupFaults = CleanupFaults(
    ctxDone: bool, stop: StopOutcome, sockets: bool, pool: PoolOutcome, ctxDoneLate: bool, volumes: bool, boot: bool)

  /** The terminal write and the write of the UNKNOWN record that replaces it. */
  datatype FinalFaults = FinalFaults(terminalWrite: bool, unknownWrite: bool)

  /** How far launching the VMM got. */
  datatype LaunchOutcome =
    | PreflightFailed | NoSlot | SlotOnly | ProcessFailed(started: bool) | NotReady | Launched

  datatype CreateFaults = CreateFaults(
    invalid: bool, capacityDenied: bool, registryClosed: bool,
    creatingWrite: bool, leaseCreate: bool, cidDenied: bool, boot: bool, ramDenied: bool, volumes: bool,
    launch: LaunchOutcome, envd: bool, diedInBootstrap: bool, publishRefused: bool, readyWrite: bool,
    cleanup: CleanupFaults, leaseDelete: bool, final: FinalFaults,
    metered: bool, bootRam: nat, gen: nat, lifetime: nat, cid: nat, vmm: nat, ip: Ip, pid: nat,
    expiryClock: int, startClock: int)

  datatype DeleteFaults = DeleteFaults(
    get: bool, ctxDone: bool, cleanup: CleanupFaults, leaseDelete: bool, recordDelete: bool, failureWrite: bool)

  datatype ExpireFaults = ExpireFaults(
    get: bool, cleanup: CleanupFaults, leaseDelete: bool, failureWrite: bool, final: FinalFaults)

  datatype ExitFaults = ExitFaults(cleanup: CleanupFaults, leaseDelete: bool, get: bool, write: bool)

  /** A capture: checks and staging, freezing, artifacts, thawing. */
  datatype CaptureFaults = CaptureFaults(prepare: bool, pause: bool, artifacts: bool, resume: bool)

  datatype CaptureOutcome = Captured | CaptureFailed | CaptureResumeFailed

  datatype CheckpointFaults = CheckpointFaults(
    get: bool, inspect: bool, capture: CaptureFaults, suspendGet: bool, suspendWrite: bool,
    publish: bool, digest: Digest, undoResume: bool, undoWrite: bool, routeRefused: bool,
    headWrite: bool, register: bool, rollbackWrite: bool, lifetime: nat, clock: int)

  /** How a checkpoint begins: published, refused with the guest as it was, or failed with the guest
      left frozen by the capture (after a failed thaw, or after a capture kept it paused). */
  datatype BeginOutcome = Begun | Refused | ThawFailed | FailedAfterCapture

  datatype ResumeFaults = ResumeFaults(get: bool, cleanup: CleanupFaults, leaseDelete: bool, create: CreateFaults)

  datatype PauseFaults = PauseFaults(
    begin: CheckpointFaults, labels: bool, stop: StopOutcome, firstResume: bool, sockets: bool, socketWrite: bool,
    pausedWrite: bool, strandedWrite: bool, cleanup: CleanupFaults, leaseDelete: bool, failureWrite: bool, clock: int)

  // ---------------------------------------------------------------------------------------------
  // Contracts of the shared tails
  // ---------------------------------------------------------------------------------------------

  /** A cleanup succeeds when everything the entry holds can be released. */
  predicate Cleans(e: Entry, f: CleanupFaults) {
    && !f.ctxDone && !f.ctxDoneLate && !f.volumes && !f.boot
    && StopsProcess(e, f)
    && (e.slot.Some? ==> f.pool.SlotReturned?)
  }

  predicate StopsProcess(e: Entry, f: CleanupFaults) { e.process.Some? ==> f.stop.Stopped? && !f.sockets }

  /** What cleanupSandbox leaves behind. The route goes first. A process that Stop or the removal of its
      sockets keeps stays, and keeps the slot, but its memory comes back once its exit is confirmed.
      Without a process the slot goes, or stays with what the pool left of it; the context id goes last. */
  predicate CleanedUp(v: View, u: View, f: CleanupFaults)
    requires v.entry.Some?
  {
    if f.ctxDone then u == v
    else
      var e := v.entry.value;
      && u == v.(route := None, entry := u.entry, cid := if Cleans(e, f) then None else v.cid) && u.entry.Some?
      && u.entry.value == e.(process := u.entry.value.process, slot := u.entry.value.slot, ram := u.entry.value.ram)
      && if StopsProcess(e, f) then
           && u.entry.value.process.None? && u.entry.value.ram == 0
           && u.entry.value.slot == if e.slot.None? || f.pool.SlotReturned? then None
                                    else if f.pool.SlotKept? then e.slot else Some("")
         else
           var gone := e.process.value.exited || f.stop != StopFailed(false);
           && u.entry.value.slot == e.slot
           && u.entry.value.process == Some(e.process.value.(exited := gone))
           && u.entry.value.ram == if gone then 0 else e.ram
  }

  /** The record a failed terminal write leaves: UNKNOWN without a runtime, and without the lineage
      when the verdict was deletion. */
  function UnknownAfterRelease(r: Record, deletion: bool): Record {
    r.(state := Unknown, head := if deletion then r.source else r.head, ip := "", pid := 0, expiresAt := 0)
  }

  /** The PAUSED record of a released runtime: the head stays, StartedAt rewinds to the run that
      produced it. */
  function PausedRecord(r: Record): Record {
    r.(state := Paused, ip := "", pid := 0, expiresAt := 0,
       startedAt := if r.headStartedAt > 0 then r.headStartedAt else r.startedAt)
  }
}
