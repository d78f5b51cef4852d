/** What each lifecycle operation makes of the view of its sandbox, for every combination of failures.
    The predicates compare the view before (`v`) and after (`u`); the class Manager.Locked is proved
    against them. */
module Outcomes {
  import opened Domain
  import opened RouteRegistry
  import opened World
  import opened Lifecycle

  // ---------------------------------------------------------------------------------------------
  // Delete, Expire, exit
  // ---------------------------------------------------------------------------------------------

  /** The deadline under the lock is not past the tick that reported the sandbox expired. */
  predicate StillAlive(r: Record, expiredBefore: Option<int>) {
    expiredBefore.Some? && (r.expiresAt <= 0 || r.expiresAt > expiredBefore.value)
  }

  predicate ExpiryApplies(v: View, expiredBefore: Option<int>) {
    && v.rec.Some? && v.rec.value.e2b && v.rec.value.state == Ready
    && (expiredBefore.None? || 0 < v.rec.value.expiresAt <= expiredBefore.value)
  }

  /** The entry is taken out of service before its runtime goes. */
  function Degraded(v: View): View {
    if v.entry.Some? then v.(entry := Some(v.entry.value.(state := Unknown))) else v
  }

  /** The runtime of a degraded entry went as far as it could; without an entry nothing happened. */
  predicate TornDown(v: View, u: View, f: CleanupFaults) {
    if v.entry.Some? then CleanedUp(Degraded(v), u, f) else u == v
  }

  predicate TearsDown(v: View, f: CleanupFaults) { v.entry.Some? ==> Cleans(v.entry.value, f) }

  /** The record of a failed deletion, unless it cannot be written. */
  predicate VerdictWritten(was: Option<Record>, now: Option<Record>, fails: bool) {
    now == if was.None? || fails then was else Some(was.value.(state := Unknown, head := was.value.source))
  }

  /** A failed Delete leaves the verdict and what could not be released; a successful one nothing. */
  predicate DeleteEffect(v: View, u: View, f: DeleteFaults) {
    if f.get || f.ctxDone then u == v
    else if !TearsDown(v, f.cleanup) || f.leaseDelete || f.recordDelete then
      && TornDown(v, u.(rec := v.rec, lease := v.lease), f.cleanup) && VerdictWritten(v.rec, u.rec, f.failureWrite)
      && u.lease == (v.lease && (!TearsDown(v, f.cleanup) || f.leaseDelete))
    else
      u == View(None, None, None, if v.entry.Some? then None else v.route, None, 0, false)
  }

  /** An expiry acts on a READY run past its deadline only, and then deletes. */
  predicate ExpireEffect(v: View, u: View, expiredBefore: Option<int>, f: ExpireFaults) {
    if f.get || !ExpiryApplies(v, expiredBefore) then u == v
    else if !TearsDown(v, f.cleanup) || f.leaseDelete then
      TornDown(v, u.(rec := v.rec), f.cleanup) && VerdictWritten(v.rec, u.rec, f.failureWrite)
    else
      && u == View(u.rec, None, None, if v.entry.Some? then None else v.route, None, 0, false)
      && u.rec == if !f.final.terminalWrite then None
                  else if f.final.unknownWrite then v.rec
                  else Some(v.rec.value.(state := Unknown, head := v.rec.value.source, ip := "", pid := 0,
                      expiresAt := 0))
  }

  /** An exit notice counts only for the incarnation it is about, and only while nobody else has taken
      the entry out of service. */
  predicate ExitApplies(v: View, gen: nat) {
    v.entry.Some? && v.entry.value.gen == gen && v.entry.value.state != Unknown
  }

  predicate ExitEffect(v: View, u: View, gen: nat, f: ExitFaults)
    requires v.entry.Some? ==> v.rec.Some?
  {
    if !ExitApplies(v, gen) then u == v
    else
      var r, dropped := v.rec.value, v.rec.value.e2b && Cleans(v.entry.value, f.cleanup) && !f.get && !f.write;
      && u.rec == Some(if f.get || f.write then r
                       else if !r.e2b then r.(state := Unknown)
                       else if dropped then r.(ip := "", pid := 0) else r)
      && u.lease == (v.lease && f.leaseDelete)
      && if dropped then u == v.(rec := u.rec, lease := u.lease, entry := None, route := None, cid := None)
         else TornDown(v, u.(rec := v.rec, lease := v.lease), f.cleanup)
  }

  // ---------------------------------------------------------------------------------------------
  // Suspend, Resume, UpdateNetwork, ApplyTTL
  // ---------------------------------------------------------------------------------------------

  predicate ChangeApplies(v: View, suspend: bool) {
    v.entry.Some? && v.entry.value.state == if suspend then Ready else Suspended
  }

  /** The entry follows the VMM and the record the entry; a resumed E2B sandbox is published again. */
  predicate ChangeEffect(v: View, u: View, suspend: bool, getFails: bool, vmmFails: bool, writeFails: bool,
      routeRefused: bool)
    requires v.entry.Some? ==> v.rec.Some?
  {
    if !ChangeApplies(v, suspend) || getFails then u == v
    else
      var e, r := v.entry.value, v.rec.value;
      var state := if vmmFails then Unknown else if suspend then Suspended else Ready;
      && u == v.(rec := u.rec, entry := u.entry, route := u.route) && u.entry.Some?
      && u.entry.value == e.(state := state, process := u.entry.value.process)
      && (vmmFails ==> u.entry.value.process == e.process)
      && (!vmmFails && e.process.Some? ==>
            u.entry.value.process == Some(e.process.value.(freeze := if suspend then ByUser else Thawed)))
      && u.rec == (if writeFails then v.rec else Some(r.(state := state)))
      && u.route == if !vmmFails && !suspend && r.e2b && !routeRefused && r.ip != "" && v.route.Some?
      && v.route.value.ip in {"", r.ip}
                    then Some(v.route.value.(ip := r.ip)) else v.route
  }

  /** The new policy is stored and applied, or the old one is back. If the guest takes neither, it is
      stopped and out of service. */
  predicate NetworkEffect(v: View, u: View, network: string, getFails: bool, write: bool, apply: bool, rollback: bool,
    suspendFails: bool, rollbackWrite: bool)
    requires v.entry.Some? ==> v.rec.Some?
  {
    if v.entry.None? || v.entry.value.state !in {Ready, Suspended} || getFails || write then u == v
    else
      var e, r := v.entry.value, v.rec.value;
      if !apply then u == v.(rec := Some(r.(network := network)))
      else
        && u == v.(rec := u.rec, entry := u.entry) && u.entry.Some?
        && (!rollback ==> u.entry == v.entry)
        && (rollback ==>
              && u.entry.value == e.(state := Unknown, process := u.entry.value.process)
              && (e.process.Some? && e.state == Ready && !suspendFails ==>
                    u.entry.value.process == Some(e.process.value.(freeze := ByUser)))
              && (e.state != Ready || suspendFails ==> u.entry.value.process == e.process))
        && u.rec == Some(if rollbackWrite then r.(network := network)
             else r.(state := if rollback then Unknown else e.state))
  }

  predicate TtlApplies(v: View, q: TtlRequest, getFails: bool, now: int) {
    && !getFails && v.rec.Some? && v.rec.value.e2b && v.rec.value.state == Ready
    && (q.maxLifetime > 0 ==> now - v.rec.value.startedAt <= q.maxLifetime)
  }

  /** The deadline a TTL request asks for: as far from now as asked, or now for a non-positive request,
      unless that is past the total-lifetime cap, which then binds. */
  function NewDeadline(q: TtlRequest, startedAt: int, now: int): (d: int)
    ensures (q.maxLifetime <= 0 || now <= startedAt + q.maxLifetime) && q.ttl <= 0 ==> d == now
    ensures (q.maxLifetime <= 0 || now + q.ttl <= startedAt + q.maxLifetime) && q.ttl > 0 ==> d == now + q.ttl
    ensures q.maxLifetime > 0 && q.ttl > 0 && now + q.ttl > startedAt + q.maxLifetime ==> d == startedAt + q.maxLifetime
    ensures q.maxLifetime > 0 ==> d <= startedAt + q.maxLifetime
  {
    var asked := if q.ttl > 0 then now + q.ttl else now;
    if q.maxLifetime > 0 && startedAt + q.maxLifetime < asked then startedAt + q.maxLifetime else asked
  }

  /** Only the deadline moves, and an extending request moves it only forward. */
  predicate TtlEffect(v: View, u: View, q: TtlRequest, getFails: bool, writeFails: bool, checkClock: int, now: int) {
    if !TtlApplies(v, q, getFails, checkClock) || writeFails || (q.extendOnly && q.ttl <= 0) then u == v
    else
      var r := v.rec.value;
      var d := NewDeadline(q, r.startedAt, now);
      u == v.(rec := Some(r.(expiresAt := if q.extendOnly && d <= r.expiresAt then r.expiresAt else d)))
  }

  // ---------------------------------------------------------------------------------------------
  // Checkpoint and Pause
  // ---------------------------------------------------------------------------------------------

  /** The route is withdrawn: a published slot got a new lifetime, and has no address. */
  predicate Unserved(v: View, u: View, lifetime: nat) {
    u.route == if v.route.Some? && v.route.value.ip != "" then Some(RouteSlot("", lifetime)) else v.route
  }

  /** The sandbox is reachable again at its address, if it has a slot and the publication is accepted. */
  predicate Served(v: View, u: View, ip: Ip, lifetime: nat, refused: bool) {
    if refused || v.route.None? then Unserved(v, u, lifetime)
    else u.route == Some(RouteSlot(ip, if v.route.value.ip == "" then v.route.value.lifetime else lifetime))
  }

  /** A capture is attempted at all. */
  predicate Tried(e: Entry, f: CheckpointFaults) { e.state in {Ready, Suspended} && !e.volumes && !f.inspect }

  /** The capture itself freezes the guest. */
  predicate Freezes(e: Entry, f: CheckpointFaults) {
      Tried(e, f) && e.state == Ready && !f.capture.prepare && !f.capture.pause }

  /** The capture froze the guest and the VMM refuses to thaw it. */
  predicate ThawLost(e: Entry, leavePaused: bool, f: CheckpointFaults) {
    Freezes(e, f) && f.capture.resume && (f.capture.artifacts || !leavePaused)
  }

  /** The capture is complete; one that found the guest running leaves it frozen if asked to. */
  predicate CaptureHeld(e: Entry, leavePaused: bool, f: CheckpointFaults) {
    Tried(e, f) && !f.capture.prepare && !f.capture.artifacts
    && (e.state == Ready ==> !f.capture.pause && (leavePaused || !f.capture.resume))
  }

  /** A checkpoint is captured and published. */
  predicate Begins(e: Entry, leavePaused: bool, f: CheckpointFaults) { CaptureHeld(e, leavePaused, f) && !f.publish }

  /** The same entry with its guest in another freeze. */
  function WithFreeze(e: Entry, freeze: Freeze): Entry {
    if e.process.Some? then e.(process := Some(e.process.value.(freeze := freeze))) else e
  }

  /** What a capture that could not thaw its guest makes of the record. */
  function FrozenRecord(r: Record, f: CheckpointFaults): Record {
    if f.suspendGet || f.suspendWrite then r else r.(state := Suspended)
  }

  /** After a failed thaw: one more resume decides. The guest runs again, READY and reachable, or it is
      UNKNOWN, frozen and hidden. The record follows if it can be written. */
  predicate ThawUndone(v: View, u: View, f: CheckpointFaults)
    requires v.rec.Some? && v.entry.Some?
  {
    var e, r := v.entry.value, v.rec.value;
    && u == v.(rec := u.rec, entry := u.entry, route := u.route)
    && u.rec == Some(if f.undoWrite then FrozenRecord(r, f) else r.(state := if f.undoResume then Unknown else Ready))
    && u.entry == Some(if f.undoResume then WithFreeze(e, ByCapture).(state := Unknown)
         else WithFreeze(e, Thawed).(state := Ready))
    && if f.undoResume then Unserved(v, u, f.lifetime) else Served(v, u, r.ip, f.lifetime, f.routeRefused)
  }

  /** A checkpoint, refused or not, leaves the guest as it found it, running if it was running, and
      reachable again. The head moves exactly when the checkpoint is published and registered. */
  predicate CheckpointEffect(v: View, u: View, f: CheckpointFaults)
    requires v.entry.Some? ==> v.rec.Some?
  {
    if v.entry.None? || f.get then u == v
    else
      var e, r := v.entry.value, v.rec.value;
      if Begins(e, false, f) && !f.headWrite && (f.register ==> f.rollbackWrite) then
        && u.rec == Some(r.(head := f.digest, headStartedAt := r.startedAt, headCreatedAt := f.clock))
        && CaptureOver(v, u.(rec := v.rec), f)
      else CaptureOver(v, u, f)
  }

  /** The capture of a checkpoint is over, whatever came of it. */
  predicate CaptureOver(v: View, u: View, f: CheckpointFaults)
    requires v.rec.Some? && v.entry.Some?
  {
    var e := v.entry.value;
    if ThawLost(e, false, f) then ThawUndone(v, u, f)
    else
      && u == v.(entry := Some(if Freezes(e, f) then WithFreeze(e, Thawed) else e), route := u.route)
      && Served(v, u, v.rec.value.ip, f.lifetime, f.routeRefused)
  }

  /** A pause gets as far as stopping the VMM. */
  predicate StopReached(v: View, expiredBefore: Option<int>, f: PauseFaults) {
    !f.begin.get && ExpiryApplies(v, expiredBefore) && v.entry.Some? && Begins(v.entry.value, true, f.begin)
    && !f.labels
  }

  /** A pause that came to nothing hands the captured guest back: READY, running, reachable, behind the
      old record. It is UNKNOWN and hidden instead exactly if the VMM is gone or refuses to resume twice. */
  predicate HandedBack(v: View, u: View, gone: bool, f: PauseFaults)
    requires v.rec.Some? && v.entry.Some?
  {
    var e, r := v.entry.value, v.rec.value;
    && u == v.(rec := u.rec, entry := u.entry, route := u.route)
    && if !gone && (!f.firstResume || !f.begin.undoResume) then
         && u.entry == Some(WithFreeze(e, Thawed).(state := Ready)) && u.rec == v.rec
         && Served(v, u, r.ip, f.begin.lifetime, f.begin.routeRefused)
       else
         && u.entry == Some(Ended(if e.state == Ready then WithFreeze(e, ByCapture) else e, gone))
         && u.rec == Some(if f.begin.undoWrite then r else r.(state := Unknown))
         && Unserved(v, u, f.begin.lifetime)
  }

  /** An entry out of service, and its guest gone if `gone`. */
  function Ended(e: Entry, gone: bool): Entry {
    if gone && e.process.Some? then e.(state := Unknown, process := Some(e.process.value.(exited := true)))
    else e.(state := Unknown)
  }

  /** The record of a stopped run, on the new capture. */
  function Recaptured(r: Record, f: PauseFaults, state: State): Record {
    r.(state := state, head := f.begin.digest, headStartedAt := r.startedAt, headCreatedAt := f.clock)
  }

  /** Once the VMM has stopped, every record written is on the new capture: PAUSED without a runtime, or
      UNKNOWN. What could not be released stays with the entry. `v` is the view with the guest captured. */
  predicate Ends(v: View, u: View, f: PauseFaults)
    requires v.rec.Some? && v.entry.Some?
  {
    var e, r := v.entry.value, v.rec.value;
    var w := v.(entry := Some(e.(state := Unknown, process := None)));
    var stranded := Recaptured(r, f, Unknown);
    var paused := Recaptured(r, f, Paused).(ip := "", pid := 0, expiresAt := 0);
    if f.sockets then u == v.(entry := Some(Ended(e, true)), rec := Some(if f.socketWrite then r else stranded))
    else if f.pausedWrite && f.strandedWrite then u == w
    else if Cleans(w.entry.value, f.cleanup) && !f.leaseDelete then
      u == View(Some(if f.pausedWrite then stranded else paused), None, None, None, None, 0, false)
    else
      && u.rec == Some(if f.pausedWrite then stranded else if f.failureWrite then paused else paused.(state := Unknown))
      && CleanedUp(w, u.(rec := w.rec), f.cleanup)
  }

  /** The view with the guest captured for a pause. */
  function HeldFor(v: View, f: PauseFaults): View
    requires v.entry.Some?
  {
    var e := v.entry.value;
    v.(route := if v.route.Some? && v.route.value.ip != "" then Some(RouteSlot("", f.begin.lifetime)) else v.route,
       entry := Some(if e.state == Ready then WithFreeze(e, ByCapture) else e))
  }

  /** The runtime of a record is in service. */
  predicate InService(v: View) { v.entry.Some? && v.entry.value.state in {Ready, Suspended} }

  predicate PauseApplies(v: View, expiredBefore: Option<int>, f: PauseFaults) {
    !f.begin.get && ExpiryApplies(v, expiredBefore) && InService(v)
  }

  /** Every way a pause can go. */
  predicate PauseEffect(v: View, u: View, expiredBefore: Option<int>, f: PauseFaults)
    requires v.entry.Some? ==> v.rec.Some?
  {
    if PauseApplies(v, expiredBefore, f) then PauseRun(v, u, f) else u == v
  }

  predicate PauseRun(v: View, u: View, f: PauseFaults)
    requires v.rec.Some? && v.entry.Some?
  {
    var e := v.entry.value;
    if !Begins(e, true, f.begin) || f.labels then PauseGivenUp(v, u, f)
    else if f.stop.StopFailed? then HandedBack(v, u, f.stop.exited, f)
    else Ends(HeldFor(v, f), u, f)
  }

  /** A pause given up before it stops the VMM. */
  predicate PauseGivenUp(v: View, u: View, f: PauseFaults)
    requires v.rec.Some? && v.entry.Some?
  {
    var e := v.entry.value;
    if ThawLost(e, true, f.begin) then ThawUndone(v, u, f.begin)
    else if CaptureHeld(e, true, f.begin) then HandedBack(v, u, false, f)
    else
      && u == v.(entry := Some(if Freezes(e, f.begin) then WithFreeze(e, Thawed) else e), route := u.route)
      && Served(v, u, v.rec.value.ip, f.begin.lifetime, f.begin.routeRefused)
  }

  // ---------------------------------------------------------------------------------------------
  // Create and resume
  // ---------------------------------------------------------------------------------------------

  predicate Reserves(v: View, cpus: int, ramMB: int, f: CreateFaults) {
    v.resv.None? && cpus > 0 && ramMB > 0 && !f.capacityDenied && !f.registryClosed
  }

  /** The boot layout is prepared, which tells the guest's memory. */
  predicate LaidOut(f: CreateFaults) { !f.leaseCreate && !f.cidDenied && !f.boot }

  predicate Prepares(volumes: bool, f: CreateFaults) {
    !f.cidDenied && !f.boot && !(f.metered && f.ramDenied) && !(volumes && f.volumes)
  }

  predicate Acquires(volumes: bool, f: CreateFaults) { Prepares(volumes, f) && f.launch.Launched? }

  /** The guest answers and its route is published. */
  predicate Answers(f: CreateFaults) { !f.envd && !f.diedInBootstrap && !f.publishRefused }

  predicate Commits(e2b: bool, f: CreateFaults) { !f.readyWrite && (e2b ==> Answers(f)) }

  /** A boot succeeds when no step fails; a fresh one also needs an id without a record. */
  predicate Boots(e2b: bool, volumes: bool, taken: bool, f: CreateFaults) {
    !taken && !f.creatingWrite && !f.leaseCreate && Acquires(volumes, f) && Commits(e2b, f)
  }

  predicate GotSlot(f: CreateFaults) { !f.launch.PreflightFailed? && !f.launch.NoSlot? }

  predicate GotProcess(f: CreateFaults) { GotSlot(f) && !f.launch.SlotOnly? }

  /** The process of a launch that got as far as making one. */
  function LaunchedProcess(f: CreateFaults): Process {
    Process(f.vmm, f.launch.ProcessFailed? && !f.launch.started, Thawed)
  }

  /** What a boot that failed had acquired. */
  function HalfEntry(volumes: bool, f: CreateFaults): Entry {
    var prepared := !f.leaseCreate && Prepares(volumes, f);
    Entry(Unknown, f.gen,
      if prepared && GotProcess(f) then Some(LaunchedProcess(f)) else None,
      if prepared && GotSlot(f) then Some(f.ip) else None,
      if LaidOut(f) && f.metered && !f.ramDenied then f.bootRam else 0,
      volumes && prepared)
  }

  /** The record as far as a boot that failed had filled it in. */
  function HalfRecord(r: Record, e2b: bool, volumes: bool, timeout: int, f: CreateFaults): Record {
    var launched := !f.leaseCreate && Acquires(volumes, f);
    r.(ramMB := if LaidOut(f) then f.bootRam else r.ramMB,
       pid := if HalfEntry(volumes, f).process.Some? then f.pid else r.pid,
       ip := if launched then f.ip else r.ip,
       expiresAt := if launched && e2b && Answers(f) then f.expiryClock + timeout else r.expiresAt,
       startedAt := if launched && (e2b ==> Answers(f)) then f.startClock else r.startedAt)
  }

  /** The view in which a failed boot is rolled back. */
  function HalfView(v: View, r: Record, e2b: bool, volumes: bool, f: CreateFaults): View {
    v.(rec := Some(r), entry := Some(HalfEntry(volumes, f)),
       cid := if f.leaseCreate || f.cidDenied then None else Some(f.cid),
       lease := v.lease || !f.leaseCreate,
       route := if e2b && !f.leaseCreate && Acquires(volumes, f) && Answers(f) && v.route.Some?
                then Some(v.route.value.(ip := f.ip)) else v.route)
  }

  /** The create kernel on a view that has its reservation and route slot: `r` is the CREATING record,
      `taken` says that a fresh create finds a record already there. */
  predicate BootEffect(v: View, u: View, e2b: bool, volumes: bool, timeout: int, r: Record, taken: bool,
      f: CreateFaults) {
    if Boots(e2b, volumes, taken, f) then
      u == v.(rec := Some(r.(state := Ready, ip := f.ip, pid := f.pid, ramMB := f.bootRam, startedAt := f.startClock,
                             expiresAt := if e2b then f.expiryClock + timeout else r.expiresAt)),
              entry := Some(Entry(Ready, f.gen, Some(Process(f.vmm, false, Thawed)), Some(f.ip),
                                  if f.metered then f.bootRam else 0, volumes)),
              cid := Some(f.cid), lease := f.leaseDelete,
              route := if e2b && v.route.Some? then Some(v.route.value.(ip := f.ip)) else v.route)
    else if taken || f.creatingWrite then
      u == v.(resv := if e2b then None else v.resv, route := if f.cleanup.ctxDone then v.route else None)
    else
      var w, z := HalfView(v, r, e2b, volumes, f), HalfRecord(r, e2b, volumes, timeout, f);
      if !Cleans(w.entry.value, f.cleanup) || (!f.leaseCreate && f.leaseDelete) then
        && CleanedUp(w, u.(rec := w.rec), f.cleanup)
        && u.rec == Some(if f.final.unknownWrite then r else z.(state := Unknown))
      else
        && u == View(u.rec, None, if e2b then None else v.resv, None, None, v.pending, f.leaseCreate && v.lease)
        && u.rec == if f.final.terminalWrite then
                      Some(if f.final.unknownWrite then r else z.(state := Unknown, ip := "", pid := 0, expiresAt := 0))
                    else if z.e2b && z.head != "" && z.head != z.source then
                      Some(z.(state := Paused, ip := "", pid := 0, expiresAt := 0,
                              startedAt := if z.headStartedAt > 0 then z.headStartedAt else z.startedAt))
                    else None
  }

  /** The view with the capacity and the route slot of an E2B boot. */
  function Reserved(v: View, cpus: int, ramMB: int, f: CreateFaults): View {
    v.(resv := Some(Alloc(cpus, ramMB)), route := Some(RouteSlot("", f.lifetime)))
  }

  /** A create is refused without a trace, or the kernel runs on the request's resources. */
  predicate CreateEffect(v: View, u: View, q: CreateRequest, f: CreateFaults) {
    if f.invalid || q.template == "" || (q.e2b && q.timeout <= 0) || v.entry.Some?
        || (q.e2b && !Reserves(v, q.cpus, q.ramMB, f))
    then u == v
    else
      BootEffect(if q.e2b then Reserved(v, q.cpus, q.ramMB, f) else v, u, q.e2b, q.volumes, q.timeout,
        Record(Creating, q.e2b, q.template, q.template, "", 0, q.cpus, q.ramMB, q.network, q.autoResume, 0, 0, 0, 0),
        v.rec.Some?, f)
  }

  /** The entry of another owner stands in the way of a resume. */
  predicate OthersEntry(v: View) {
    v.entry.Some? && !(v.rec.Some? && v.rec.value.state in {Paused, Unknown} && v.entry.value.state == Unknown)
  }

  /** No other owner holds an entry, and a leftover one can be released. */
  predicate Unblocked(v: View, f: ResumeFaults) {
    v.entry.None? || (!OthersEntry(v) && Cleans(v.entry.value, f.cleanup) && !f.leaseDelete)
  }

  /** The view without the leftovers of a stranded pause. */
  function Freed(v: View): View { if v.entry.Some? then View(v.rec, None, None, None, None, 0, false) else v }

  /** A resume is for a PAUSED record, or an E2B one that a failed operation left UNKNOWN or CREATING on a
      checkpoint of its own. */
  predicate MayResume(r: Record) {
    r.state == Paused || (r.e2b && (r.state == Creating || r.state == Unknown) && r.head != r.source && r.head != "")
  }

  /** A paused or stranded sandbox comes back to life. */
  predicate Revives(v: View, f: ResumeFaults) {
    v.rec.Some? && v.rec.value.e2b && MayResume(v.rec.value) && Restarts(v, v.rec.value, f)
  }

  /** The boot of a record works out. */
  predicate Restarts(v: View, r: Record, f: ResumeFaults) {
    && Unblocked(v, f) && !f.create.invalid
    && Reserves(Freed(v), r.cpus, r.ramMB, f.create) && Boots(true, false, false, f.create)
  }

  /** A resume is refused without a trace, or boots the record it found. */
  predicate ResumeEffect(v: View, u: View, timeout: int, wake: bool, f: ResumeFaults) {
    if timeout <= 0 || f.get || v.rec.None? || !v.rec.value.e2b || !MayResume(v.rec.value)
       || (wake && !v.rec.value.autoResume) || OthersEntry(v)
    then u == v
    else RestartEffect(v, u, v.rec.value, timeout, f)
  }

  /** The boot of a record starts at its checkpoint head, with its own resources, once the leftovers of a
      stranded pause are released. */
  predicate RestartEffect(v: View, u: View, r: Record, timeout: int, f: ResumeFaults) {
    if v.entry.Some? && !Unblocked(v, f) then CleanedUp(v, u, f.cleanup)
    else if f.create.invalid || !Reserves(Freed(v), r.cpus, r.ramMB, f.create) then u == Freed(v)
    else BootEffect(Reserved(Freed(v), r.cpus, r.ramMB, f.create), u, true, false, timeout,
           r.(state := Creating, ip := "", pid := 0), false, f.create)
  }
}
