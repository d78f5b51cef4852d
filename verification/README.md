# Conch sandbox node: a verified model

Conch runs micro-VM sandboxes on a node. This project models the parts of it whose correctness is
hardest to see by reading and proves what they promise, for every input, every fault and every
interleaving. Check it with `dafny verify dfyconfig.toml`.

## What is modelled

**The sandbox lifecycle manager** (`Domain`, `World`, `Runs`, `Lifecycle`, `Outcomes`, `Manager`,
`LifecycleRuns`, `SharedServices`). Create, Delete, Suspend, Resume, UpdateNetwork, Checkpoint, Pause, ResumePaused,
EnsureRunning, ApplyTTL, Expire and the exit watcher each run under the lock of one sandbox id. An object
of class `Manager.Locked` is what the holder of that lock owns: the id's key in the record store, the
entry map, the capacity ledger, the route registry and the CID table. Every operation is a method that
changes it through atomic actions only; each external call takes its verdict from a fault record, so a
contract that holds for all fault records holds under every failure. The main contracts say exactly when
the operation succeeds (`<==>`) and what it leaves: `Outcomes` relates the whole view before an operation
to the whole view after it, for every fault record, in terms of what the caller sees (a capture is held, the
guest is handed back, the route serves again), without the order of steps. `World` says what one
atomic action does to the whole node and that it keeps the node's invariant; `Runs` proves that any
interleaving of locked operations is a run of the node, so the invariant holds at every instant, and that
each sandbox ends up as if its operations had run alone, whenever the route registry closes meanwhile.
`LifecycleRuns` draws the consequences: from the logs of `Locked` objects for the whole node, and for
sequences of operations on one sandbox. `KeyedLocks` proves that the locks do give one holder per id.

**The route registry and proxied requests** (`RouteRegistry`, `Runs`): cancellable lifetimes and the
(address, lifetime) pair that each request copies.

**Network slots and egress authorisation** (`SlotMachine`, `SlotPool`, `EgressCheck`, `EgressRules`). The
machine keeps apart which callers hold a slot, which slots are queued and which are retired; that these
exclude each other is proved. Each method of `SlotPool.WarmPool` runs while other callers take any steps
they may, on any slots, between any two of its own steps. `Check` loads three times from a pool that
changes between the loads.

**Smaller pieces**: RAM admission by compare-and-swap, the iptables rule compiler at the level of its text,
cursor pagination over a changing set, Boot Index build, inspection and checkpoint lineage, the overflow
guards of the heartbeat sum, and the 64-bit timeout arithmetic of the E2B API.

## Where the code does not do what it says

Three promises of the code fail, and one kind of rule covers more than it says. The code is modelled as it
is, and the contracts state the exact condition.

1. *A guest that a capture froze is never published while frozen* (internal/sandbox/checkpoint.go:61-79).
   When a checkpoint can neither thaw the guest nor undo, the sandbox is left UNKNOWN and frozen with its
   route withdrawn. A second Checkpoint is refused because of the UNKNOWN state, but its error path
   republishes the route. `Manager.Locked.Checkpoint` and `Perform` state that a frozen guest becomes
   reachable if and only if a checkpoint is asked of a sandbox in that state (`RepublishesFrozen`);
   `LifecycleRuns.FrozenGuestBecomesReachable` is a concrete run.
2. *A pause that stopped the VMM keeps the new capture* (internal/sandbox/pause.go:36-42 and 116-119). Stop
   can report an error although the process exited: a failed API shutdown followed by a successful SIGTERM
   (internal/vmm/process.go:293-320). The pause then takes the VM for running, fails to resume it and
   strands the record on its old head. `Manager.Locked.Pause` states that the record is then resumable if
   and only if there was an older checkpoint; `LifecycleRuns.FirstCaptureIsLost` is a concrete run. In every
   other case the promise is proved.
3. *A stranded resume can be retried* (internal/sandbox/pause.go:247-260). A resume that fails, cannot clean
   up and cannot write its UNKNOWN record (internal/sandbox/create.go:124-139) leaves a CREATING record with
   an entry. The record passes the resume gate, but every later resume is refused as somebody else's
   (internal/sandbox/pause.go:363). `LifecycleRuns.ResumeBootsUnlessBlocked` states that when nothing fails
   a resumable sandbox boots if and only if it is not in that state, and `RetryResume` when a failed resume
   leads there; `LifecycleRuns.ResumeGetsStuck` is a concrete run.
4. *A host pattern with a wildcard is for the names below a domain*
   (internal/netstack/l7_egress_security.go:511-518; the domain itself is excluded,
   internal/netstack/l7_egress_security_test.go:149). The name may be empty: `*.example.com` also covers the
   host `.example.com`, which the authoriser does not refuse either. `EgressRules.WildcardCoversEmptyLabel`
   is that input; `EgressRules.WildcardIsExact` states that this host is the only one.

## Assumptions

Assumptions about code outside the model are written as guards or preconditions: a failing store write
changes nothing, and creating a record rejects an existing id; a published checkpoint has a digest of its
own and digests do not collide; assignment ids are never drawn twice; the clock does not go backwards
within an operation; the network plugin does not lease one address twice; a successful Stop means that the
process has exited and its exit is recorded; a VMM whose exit is confirmed cannot be resumed. Timestamps in
cursors read back and contain no underscore. Identifiers are taken as already trimmed.

## Model

| member | source | states |
|---|---|---|
| World.ActionKeepsInv | internal/sandbox/lifecycle.go:423-474 | every atomic action of any operation keeps the node's invariant: exact ledgers within limits, published routes only at held slots, distinct addresses and CIDs, live VMMs only under current entries |
| World.ActionIsLocal | internal/sandbox/lifecycle.go:19-50 | an action under one sandbox's lock changes that sandbox's view as its local effect says and no other sandbox's view |
| World.KeepsLedger | internal/conchruntime/capacity.go:51-81 | reserving what fits or releasing keeps the totals equal to the exact sums and within the limits |
| Runs.StepKeepsInv | internal/sandbox/manager.go:310-321 | VMM deaths, proxied requests and registry shutdown keep the node's invariant too, and registry history only grows |
| Runs.RunKeepsInv | internal/sandbox/create.go:83-224 | the invariant holds in every state of every run |
| Runs.PublishedIpsDistinct | internal/sandbox/create.go:189-206 | no two sandboxes publish one address |
| Runs.LiveRequestsHitHeldSlots | internal/sandboxproxy/handler.go:149-170 | a request that is not cancelled targets the address of a slot that an entry still holds, so none reaches an address that went back to the pool |
| Runs.LiveVmmsDistinct | internal/sandbox/cid_allocator.go:31-58 | at most one live VMM per sandbox, and no two with one context id |
| Runs.RunningMemoryWithinLimit | internal/sandbox/create.go:293-318 | on a node with memory admission the memory of all running VMMs together is at most the booked RAM and within the overcommitted limit |
| Runs.Isolation | internal/sandbox/lifecycle.go:27-50 | in any run at all a sandbox's view is what its own actions and the closing of the registry make of it, whatever others do |
| Runs.LockedOperationsInterleave | internal/sandbox/lifecycle.go:27-50 | if what is done under each lock replays on its own and shared services keep their contracts, every interleaving is a run and leaves each sandbox as if alone, even if the registry closes while operations are in flight |
| Runs.InterleavingsKeepInv | internal/sandbox/lifecycle.go:27-50 | the invariant holds at every instant of every such interleaving |
| World.CutOk | internal/sandboxproxy/registry.go:161-172 | an operation in flight when the registry closes may still do all it would have done but publish, and ends in the same state but for its slot |
| SharedServices.Capacity.Reserve | internal/conchruntime/capacity.go:51-68 | admits exactly when the id is new, the request positive and everything fits; totals stay exact sums |
| SharedServices.Capacity.Release | internal/conchruntime/capacity.go:70-81 | removes exactly the id's reservation; a second release changes nothing |
| SharedServices.CidAllocator.Allocate | internal/sandbox/cid_allocator.go:31-50 | a new id is larger than all before it, shared with no other sandbox, within 32 bits; an id that has one keeps it |
| SharedServices.CidAllocator.Release | internal/sandbox/cid_allocator.go:52-58 | frees the id without reusing its number |
| RamAdmission.InterleavingsKeepInv | internal/sandbox/create.go:293-318 | in every interleaving of compare-and-swap loops the counter is the sum of what is held and within the limit |
| RamAdmission.SwapIsGuardedAdd | internal/sandbox/create.go:293-318 | the loop refines an atomic guarded addition, and each reservation is returned exactly once |
| KeyedLocks.MutualExclusion | internal/sandbox/lifecycle.go:27-50 | at most one holder per key in every state of every interleaving |
| KeyedLocks.KeyPresentWhileUsed | internal/image/unpack.go:142-171 | a key is in the map exactly while it has a holder or waiter, and all of them share one lock object, cancelled waiters included |
| KeyedLocks.IdentityCheckRedundant | internal/sandbox/lifecycle.go:41-48 | the identity check before deletion never decides anything: both variants are one lock |
| KeyedLocks.WaiterBlocksOnlyOnHolder | internal/image/unpack.go:142-162 | a waiter blocks only while another thread holds its key |
| KeyedLocks.RunKeepsInv | internal/image/unpack.go:142-171 | reference counts equal the number of users in every reachable state |
| Manager.Locked.CleanupSandbox | internal/sandbox/lifecycle.go:423-474 | succeeds exactly when everything held can be released and then holds nothing; otherwise exactly which of process, slot, memory and context id stay, for each failure; the route is gone first |
| Manager.Locked.StopProcess | internal/sandbox/lifecycle.go:430-456 | the memory comes back exactly once, as soon as the exit is confirmed, even if Stop reports an error; a process whose exit is not confirmed keeps it |
| Manager.Locked.FinalizeReleased | internal/sandbox/lifecycle.go:263-281 | a recoverable lineage becomes PAUSED unless the verdict is deletion, any other record goes; entry and reservation go with it |
| Manager.Locked.FinalizeTerminalFailure | internal/sandbox/lifecycle.go:289-305 | a lost terminal write leaves UNKNOWN, without lineage when the verdict was deletion, and still drops entry and reservation |
| Manager.Locked.Create | internal/sandbox/create.go:35-77 | when it succeeds, and the whole view after every combination of failures: the record has the request's template, CPUs, network and wake setting, the reservation its CPUs and memory, and the guest is laid out from the template; an existing record stays as it is |
| Manager.CreateLeaves | internal/sandbox/create.go:83-140 | an existing record is never touched, a deletion verdict stands, and the lifetime cap of the request is kept |
| Manager.Locked.Prologue | internal/sandbox/create.go:57-77 | reservation and route slot are both held or both absent |
| Manager.Locked.CreateLocked | internal/sandbox/create.go:83-224 | succeeds exactly when no step fails; what each failed step leaves; a failed resume stays resumable at the same checkpoint |
| Manager.Locked.Rollback | internal/sandbox/create.go:89-140 | a confirmed cleanup finalizes the record, an unconfirmed one keeps it UNKNOWN with all it still owns |
| Manager.Locked.CommitReady | internal/sandbox/create.go:186-224 | READY is committed last; the deadline counts from before the start of the run |
| Manager.Locked.LaunchVmm | internal/sandbox/manager.go:282-308 | what was acquired before a failed launch stays on the entry for the rollback |
| Manager.Locked.Delete | internal/sandbox/lifecycle.go:54-99 | when it succeeds, and then nothing is left; after a failure exactly what could not be released and, if the write lands, the deletion verdict |
| Manager.Locked.PersistDeleteFailure | internal/sandbox/lifecycle.go:118-124 | the failure record is UNKNOWN with the head reset to the source |
| Manager.Locked.Expire | internal/sandbox/pause.go:464-506 | acts only on a READY E2B run whose deadline had passed; when it succeeds, and then nothing is left; after a failure what stays, and the verdict |
| Manager.Locked.HandleExit | internal/sandbox/lifecycle.go:227-241 | a notice from an earlier incarnation changes nothing; otherwise the whole view after it: when exactly the entry goes, and that an E2B record keeps its lineage and quota |
| Manager.Locked.RecordExit | internal/sandbox/lifecycle.go:317-372 | what the store and the entry map hold after an exit, for each failure |
| Manager.Locked.ChangeState | internal/sandbox/lifecycle.go:126-179 | entry follows the VMM, record follows the entry if the write lands, success exactly when both calls succeed, refusal changes nothing |
| Manager.Locked.UpdateNetwork | internal/sandbox/lifecycle.go:181-225 | succeeds exactly when stored and applied; otherwise the old policy is stored unless the rollback write fails, and a guest that takes neither is stopped and out of service |
| Manager.Locked.ApplyTTL | internal/sandbox/pause.go:420-458 | when it succeeds; only the deadline moves, to the asked one clamped to the cap, and an extending request never lowers it |
| Manager.ClampDeadline | internal/sandbox/pause.go:444-452 | the step-by-step clamping gives the smaller of asked deadline and cap |
| Outcomes.NewDeadline | internal/sandbox/pause.go:444-452 | now plus the TTL when no cap binds, now for a non-positive TTL, and the end of the total lifetime when that is earlier |
| Manager.Locked.Capture | internal/sandbox/checkpoint_capture.go:89-162 | a guest this capture froze is thawed on every path but a successful one asked to leave it paused; when each outcome happens |
| Manager.Locked.BeginCheckpoint | internal/sandbox/checkpoint.go:117-240 | captures and publishes without moving the head; an unthawed guest is recorded SUSPENDED |
| Manager.Locked.UndoSuspended | internal/sandbox/pause.go:195-209 | both entry and record return to READY, or both degrade to UNKNOWN |
| Manager.Locked.ResumeCaptured | internal/sandbox/pause.go:216-225 | the guest runs again behind the old record and is reachable unless the publication is refused, if and only if it has not exited and one of two resumes works; otherwise entry and record degrade and it stays hidden |
| Manager.Locked.WithdrawRoute | internal/sandbox/pause.go:230-234 | afterwards the sandbox is not reachable, and its slot stays |
| Manager.Locked.RestoreRoute | internal/sandbox/pause.go:238-245 | publishes exactly the record's address, and only the held slot's |
| Manager.Locked.Checkpoint | internal/sandbox/checkpoint.go:40-103 | success condition; whether it succeeds or is refused, the guest runs again if it ran before and the sandbox is reachable again, unless two thaws fail or the publication is refused; the head moves exactly on success; a frozen guest is exposed exactly in the case named above |
| Manager.CheckpointLeaves | internal/sandbox/checkpoint.go:61-103 | a deletion verdict stands, no run starts, and the sandbox is reachable again unless its guest stays frozen or the publication is refused |
| Manager.Locked.Pause | internal/sandbox/pause.go:43-190 | success condition and exact PAUSED state; a pause that fails before the VMM is gone hands the guest back READY, running and reachable behind the old record, if and only if it can still be resumed; once the VMM has stopped every landed write names the new capture; never exposes a frozen guest |
| Manager.PauseLeaves | internal/sandbox/pause.go:36-42 | what every pause leaves: once the VMM has stopped a landed write names the new capture and passes the resume gate; otherwise the old lineage stays, and a run whose exit Stop reported as an error is resumable exactly if there was an older checkpoint |
| Manager.Locked.FinishStranded | internal/sandbox/pause.go:146-176 | a lost PAUSED write pins the new head, and entry and reservation go together |
| Manager.Locked.ResumePaused | internal/sandbox/pause.go:277-307 | boots exactly when the record may be resumed and nothing fails, from its checkpoint head and on its own CPUs and memory; a READY one is joined untouched; failure leaves head and resumability |
| Manager.Locked.EnsureRunning | internal/sandbox/pause.go:316-349 | the same for wake-on-traffic, only with autoResume |
| Manager.Locked.ResumePausedLocked | internal/sandbox/pause.go:354-414 | a leftover entry is released first; success condition; the record's own CPUs and memory are reserved; the stored head never changes and is what the guest is laid out from |
| Manager.Locked.Perform | internal/sandbox/lifecycle.go:19-50 | any operation under any faults: its exact effect on the sandbox; at rest afterwards, verdict stands, lifetime cap kept, exposure exactly as named above |
| Manager.Locked.ExpiryTick | internal/e2bapi/server.go:654-700 | a tick does nothing to a sandbox whose deadline moved past it before the lock was taken; a pause-action sandbox is paused, or deleted if its runtime is out of service; any other is deleted |
| LifecycleRuns.Serve | internal/sandbox/lifecycle.go:27-50 | any sequence of operations, each under any faults: the exact effect of each, at rest after each; after a persisted deletion failure the record is never READY, SUSPENDED, PAUSED or resumable again unless deleted; lifetime cap kept; exactly when a frozen guest was exposed |
| LifecycleRuns.LosersJoin | internal/sandbox/pause.go:277-349 | after one resume booted, all later ones join it and change nothing, its deadline included |
| LifecycleRuns.AtMostOneBoots | internal/sandbox/pause.go:277-349 | of serialized resumes and wakes of one sandbox at most one boots |
| LifecycleRuns.RestIsOwnership | internal/sandbox/create.go:59-140 | with all locks free: every entry has a record, every E2B entry a reservation, every reservation an E2B record, totals are exact sums |
| LifecycleRuns.OwnershipInEveryInterleaving | internal/sandbox/create.go:59-140 | if what was done under each lock is the log of a `Locked` object that has come to rest, then after any interleaving, closing of the registry included, the node satisfies its invariant and every entry, reservation and record belong together as above |
| LifecycleRuns.ResumeBootsUnlessBlocked | internal/sandbox/pause.go:354-414 | when nothing fails a resumable sandbox boots if and only if its record is not CREATING with an entry left; in that state no resume boots it |
| LifecycleRuns.FailedResumeLeaves | internal/sandbox/create.go:124-139 | after a failed resume the record keeps its CPUs, and an entry is left only under an UNKNOWN record or, if that write failed, a CREATING one |
| LifecycleRuns.RetryResume | internal/sandbox/create.go:89-140 | after a failed resume a fault-free retry boots if and only if the first left no entry or could write its UNKNOWN record |
| LifecycleRuns.StartIsSafe | internal/sandbox/manager.go:66-98 | a node with an empty store satisfies the invariant |
| LifecycleRuns.PauseKeepsPlace | internal/e2bapi/server.go:327-336 | a pause, even a stranded one, does not change the start time a listing orders by |
| LifecycleRuns.FrozenGuestBecomesReachable | internal/sandbox/checkpoint.go:64-74 | a concrete run in which a frozen guest is republished |
| LifecycleRuns.FirstCaptureIsLost | internal/sandbox/pause.go:111-119 | a concrete pause that leaves neither run nor resumable checkpoint |
| LifecycleRuns.ResumeGetsStuck | internal/sandbox/pause.go:359-365 | a concrete failed resume after which a resume without faults is refused |
| RouteRegistry.NextSound | internal/sandboxproxy/registry.go:44-118 | every registry event keeps: uncancelled lifetimes are exactly those of present slots, no two slots share one |
| RouteRegistry.RunSound | internal/sandboxproxy/registry.go:44-172 | the same over whole runs, and history only grows |
| RouteRegistry.LifetimeHasOneIp | internal/sandboxproxy/registry.go:63-106 | a lifetime is never published with two addresses |
| RouteRegistry.ClosedForEver | internal/sandboxproxy/registry.go:161-172 | after Close there is no slot, none can appear, and every lifetime is cancelled |
| RouteRegistry.Registry.InsertSlot | internal/sandboxproxy/registry.go:44-59 | refines the Insert event; refused exactly when closed |
| RouteRegistry.Registry.PublishRoute | internal/sandboxproxy/registry.go:63-88 | refines the Publish event; when it is refused |
| RouteRegistry.Registry.UnpublishRoute | internal/sandboxproxy/registry.go:93-106 | refines the Unpublish event: requests are cancelled, the slot stays under a new lifetime |
| RouteRegistry.Registry.ReleaseSlot | internal/sandboxproxy/registry.go:111-118 | refines the Release event |
| RouteRegistry.Registry.RouteFor | internal/sandboxproxy/registry.go:132-144 | reports a published route exactly for a slot with an address |
| RouteRegistry.Registry.CloseAll | internal/sandboxproxy/registry.go:161-172 | refines the Close event: the loop cancels every slot's lifetime |
| SlotMachine.StepKeepsInv | internal/netstack/slot.go:57-75 | every step of every caller keeps the pool's invariant: a slot is queued, retired or held by exactly one caller, queued and retired ones are clean, addresses, ids and assignments are not shared |
| SlotMachine.OthersElsewhere | internal/netstack/slot.go:67-69 | exclusive ownership: no step another caller can take is on a slot this caller holds |
| SlotMachine.OthersKeepHold | internal/netstack/slot.go:67-69 | whatever another caller does, a caller keeps the slots it holds and what it sees of them |
| SlotPool.WarmPool.Acquire | internal/netstack/slot/allocator.go:52-62 | the lowest free id of the range, on a new slot object; fails exactly when all are in use |
| SlotPool.WarmPool.TryPush | internal/netstack/slot/queue.go:28-43 | a clean, wired slot enters the queue exactly when it is open and has room at that moment, at its end, and then nobody holds it |
| SlotPool.WarmPool.TryPop | internal/netstack/slot/queue.go:45-62 | the oldest warm slot, exactly when the queue is open and not empty at that moment; it carries nothing of its last sandbox and only this caller holds it |
| SlotPool.WarmPool.Apply | internal/netstack/l7_egress_security.go:214-251 | the exact policy is stored and then indexed; the same sandbox keeps its assignment id, any other gets one never used |
| SlotPool.WarmPool.Clear | internal/netstack/l7_egress_security.go:253-261 | neither policy nor index entry is left, and the policy goes first |
| SlotPool.WarmPool.CreateNetworkSlot | internal/netstack/pool.go:143-180 | a slot is made exactly when an id was free, no step failed and CNI offered an address that nobody had; it is then clean and wired; one that can be neither finished nor destroyed keeps its id |
| SlotPool.WarmPool.DestroyNetworkSlot | internal/netstack/pool.go:182-201 | the id goes back, and nobody holds the slot, exactly when the whole teardown succeeded; what is left otherwise |
| SlotPool.WarmPool.TeardownSlotNetwork | internal/netstack/pool.go:782-825 | succeeds exactly when tap, CNI and namespace removal do; the namespace goes only after the address |
| SlotPool.WarmPool.Get | internal/netstack/pool.go:549-620 | success condition; it is the oldest warm slot, the caller alone holds it, with exactly the asked policy under a new assignment; on failure it is destroyed |
| SlotPool.WarmPool.ApplyEgressSecurity | internal/netstack/pool.go:760-768 | without a controller only a policy without request rules is accepted |
| SlotPool.WarmPool.SetSandboxNetworkPolicy | internal/netstack/pool.go:622-639 | only the assigned sandbox can change the policy, and its assignment stays |
| SlotPool.WarmPool.Release | internal/netstack/pool.go:689-745 | after an accepted release nothing of the sandbox is on the slot; it is queued exactly when it is healthy, its rules are gone and the queue was open with room; else it is retired or, only on a teardown error, still the caller's |
| EgressCheck.Check | internal/netstack/l7_egress_security.go:328-411 | the exact condition of every verdict, in the words of the policy: a request goes through if and only if its connection's assignment still holds, it is well formed, no deny rule governs it, and to the first resolved address that is not denied and is let through by a governing rule, the allow list or the default |
| EgressCheck.RunKeepsInv | internal/netstack/pool.go:182-201 | the pool's invariant holds in every state of every run |
| EgressCheck.WarmSlotsAreClean | internal/netstack/pool.go:689-745 | a warm slot is in the queue once, no caller holds it, it is unassigned, without policy and unreachable by source address |
| EgressCheck.OneHolder | internal/netstack/pool.go:585-620 | no two callers ever hold one slot |
| EgressCheck.IdsReissuedAfterTeardown | internal/netstack/pool.go:182-201 | an id is reissued only after the earlier slot was torn down, so live slots never share one |
| EgressCheck.AddressesDistinct | internal/netstack/pool.go:641-687 | slots in use have distinct addresses |
| EgressCheck.NeverRevoked | internal/netstack/l7_egress_security.go:239-257 | an assignment active at two moments was active at every moment between, for one sandbox and in the same hands |
| EgressCheck.AssignmentHasOneSlot | internal/netstack/l7_egress_security.go:232-245 | no two slots ever hold one assignment, not even one after the other |
| EgressCheck.AllowedOwnerNeverChanged | internal/netstack/l7_egress_security.go:328-411 | for an allowed request: from the binding of its connection to the last load, the slot with its source address was in one caller's hands, belonged to one sandbox, and its assignment was never cleared |
| EgressRules.MatchingEgressRule | internal/netstack/l7_egress_security.go:429-454 | the deciding rule fits the request's host, port, protocol, method and path; it denies exactly if any fitting rule denies, wherever that stands, and is otherwise the first that fits; there is none exactly if none fits |
| EgressRules.TestIsExact | internal/netstack/l7_egress_security.go:429-454 | for a rule with a valid path, the test made is: the host pattern covers the host, and port, protocol, method and path are each unset or equal, or an instance of the path pattern |
| EgressRules.HostIsExact | internal/netstack/l7_egress_security.go:511-518 | a plain host pattern covers that host only; a wildcard covers whatever ends in a dot and the domain |
| EgressRules.PatternText | internal/netstack/l7_egress_security.go:511-512 | what counts of a host pattern: everything but the blanks around it and one final dot |
| EgressRules.WildcardIsExact | internal/netstack/l7_egress_security.go:511-518 | but for the host that is a dot and the domain, a wildcard covers exactly a non-empty name, a dot and the domain |
| EgressRules.WildcardCoversEmptyLabel | internal/netstack/l7_egress_security.go:511-518 | the input on which the name is empty; the domain itself is not covered |
| EgressRules.OrderIrrelevant | internal/netstack/l7_egress_security.go:429-454 | reordering the rules does not change whether a request is denied or ruled on |
| EgressRules.ChooseAddress | internal/netstack/l7_egress_security.go:378-387 | the first resolved IPv4 address that the policy permits, or none if none is |
| EgressRules.MatchesEgressIP | internal/netstack/l7_egress_security.go:413-427 | true exactly when some entry covers the address |
| EgressRules.ValidEgressPath | internal/netstack/l7_egress_security.go:456-470 | accepts exactly the patterns with whole-segment wildcards and a trailing double one |
| EgressRules.EgressPathMatches | internal/netstack/l7_egress_security.go:472-495 | the loop decides the segment-wise match |
| EgressRules.MatcherIsExact | internal/netstack/l7_egress_security.go:472-495 | for a valid pattern the matcher accepts exactly the paths obtained by filling in its wildcards |
| EgressRules.QueryIsCut | internal/netstack/l7_egress_security.go:476-477 | what is matched is the path up to its first question mark |
| PolicyRules.SandboxPolicyRules | internal/netstack/policy.go:138-159 | the emitted chain, and that for every policy, direction and packet its first-match evaluation is the policy's decision: deny, then allow, then the default |
| PolicyRules.CompileList | internal/netstack/policy.go:161-169 | one rule for each supported entry, in order |
| PolicyRules.ListMeaning | internal/netstack/policy.go:149-154 | the rules of a list match exactly the addresses the list covers |
| PolicyRules.SpelledPolicy | internal/netstack/policy.go:138-159 | for lists that spell addresses and blocks: a new connection is rejected when a denied one covers its peer, else accepted when an allowed one does, else rejected when there are allowed ones or internet access is off |
| PolicyRules.DenyOneAddress | internal/netstack/policy.go:171-177 | denying one address emits its own text and rejects the new connections to that address only |
| Destinations.NormalizeKeepsMeaning | internal/netstack/policy.go:171-184 | the normalised text of an entry, also of one in IPv4-mapped form, reads back as a destination that covers the same addresses |
| Destinations.MappedNamesAddress | internal/netstack/policy.go:171-178 | the IPv4-mapped IPv6 spelling of an address names the address itself |
| Destinations.HexNamesAddress | internal/netstack/policy.go:171-178 | so does its spelling with two hexadecimal groups, in either case |
| Destinations.MappedNamesBlock | internal/netstack/policy.go:179-184 | a block in IPv4-mapped form names the IPv4 block, its prefix length counted from the start of the IPv6 address |
| Destinations.DestRoundTrip | internal/netstack/policy.go:171-184 | addresses and CIDR blocks read back from their text |
| Destinations.EntryNames | internal/netstack/policy.go:171-184 | the text of an address or a block, as a policy entry, names that address or block and covers nothing else |
| Destinations.DottedIsCanonical | internal/netstack/policy.go:171-178 | text reads as an IPv4 address exactly when it is the canonical text of that address |
| Destinations.BlockIsAlignedRun | internal/netstack/policy.go:179-184 | a block of n bits covers the 2^(32-n) addresses of the aligned run with its address in it, and no others |
| Pagination.List | internal/e2bapi/list.go:133-168 | a page is the first items past the cursor in order, times never increasing in a descending page and never decreasing in an ascending one, with a next cursor exactly when more are left |
| Pagination.ListedExactlyOnce | internal/e2bapi/list.go:133-168 | following next tokens lists every item that is present throughout exactly once and in order, whatever else comes and goes |
| Pagination.WalkIsOrdered | internal/e2bapi/list.go:145-168 | all pages of a listing together are strictly ordered, so nothing is listed twice |
| Pagination.StableItemListed | internal/e2bapi/list.go:145-168 | nothing that is present throughout is skipped |
| Pagination.LessTotal | internal/e2bapi/list.go:133-144 | the comparison is a strict total order in both directions |
| Pagination.BeforeIsLexicographic | internal/e2bapi/list.go:133-144 | ids at one time are in byte-wise lexicographic order |
| Pagination.CursorRoundTrip | internal/e2bapi/list.go:158-191 | a cursor reads back as what was encoded, and is refused in the other direction |
| Pagination.CursorAccepted | internal/e2bapi/list.go:170-191 | exactly the tokens made of a readable stamp, a canonical id and the mark of the direction are accepted, and they read as that stamp and id |
| Pagination.SnapshotCursorRoundTrip | internal/e2bapi/snapshots.go:68-95 | the same for any non-empty snapshot id, even one with double underscores |
| BootIndex.ValidateKinds | internal/image/bootindex.go:637-662 | the loop finds one proper manifest per kind, with rootfs and sandbox present, or fails |
| BootIndex.ComponentsExact | internal/image/bootindex.go:637-662 | the manifests are accepted exactly when each is a proper manifest of a supported kind and no two share a kind |
| BootIndex.InspectExact | internal/image/bootindex.go:535-604 | an index is refused exactly when its manifests are not sound, rootfs or sandbox is missing, or its annotations and those of its memory component do not agree; what it says otherwise |
| BootIndex.InspectBuilt | internal/image/bootindex.go:74-151 | inspecting a built index gives back components, VMM, memory and CPU count; the one case in which it fails |
| BootIndex.NormalizedKind | internal/image/bootindex.go:285-319 | a normalised component is a proper manifest of the asked kind under its resolved digest |
| BootIndex.CheckpointSays | internal/image/bootindex_publish.go:88-141 | a checkpoint's index says exactly what was captured, over its source's rootfs and sandbox |
| BootIndex.CheckpointAccepted | internal/image/bootindex_publish.go:88-141 | over an accepted source, publishing works out exactly when the capture names its VMM (the source's, if it has one), has positive sizes and a usable memory component |
| BootIndex.InspectResume | internal/image/bootindex.go:535-604 | what inspection reports for a resume index whose annotations agree |
| BootIndex.Content.PublishCheckpoint | internal/image/bootindex_publish.go:88-141 | succeeds exactly when the source is stored and accepted, its content is there, the capture fits it and the write lands; the new blob is derived from its source, and nothing stored changes |
| BootIndex.LineageKeepsComponents | internal/image/bootindex_publish.go:112-141 | over any chain of checkpoints rootfs and sandbox digests never change and the VMM is fixed after the first |
| Heartbeat.ResourceSnapshot | internal/cluster/node_snapshot.go:26-72 | made exactly when all records are legal and the exact totals fit the counters; totals, counts and sorted ids are exact |
| Heartbeat.OverflowIsExact | internal/cluster/node_snapshot.go:40-57 | the guard refuses exactly the additions that would overflow |
| TtlApi.CreateTimeout | internal/e2bapi/server.go:226-233 | accepts exactly a second up to the maximum, and the nanoseconds do not wrap |
| TtlApi.ConnectTimeouts | internal/e2bapi/server.go:475-508 | refuses exactly what exceeds the maximum; extension and run lifetime, both within it |
| TtlApi.WakeTimeout | internal/e2bapi/server.go:56-61 | the smaller of 300 seconds and the maximum |
| TtlApi.SetTimeout | internal/e2bapi/timeout.go:35-64 | the clamped duration does not wrap, and the lifetime cap goes with it |
| TtlApi.Refresh | internal/e2bapi/timeout.go:69-90 | extends only, at least fifteen seconds, no wrap, the lifetime cap goes with it |

## Left out

- Startup recovery of stale sandboxes (internal/sandbox/manager.go): it runs before the operations modelled here.
- Retirement and garbage collection of superseded checkpoint content, and removal of staging directories.
- Webhook events, error texts, metadata, environment and runtime snapshot references of a record.
- HTTP routing, JSON, polling in connect, awaitResume and awaitRoute, and mask-host validation: only route selection and lifetimes are modelled.
- Manager.Locked.Perform: the lifetime cap assumes requests within the cap, which TtlApi proves for the E2B API.
- SlotPool.WarmPool.Get: host firewall, conntrack and interface work are success or failure only; prefill and population loops, which only call CreateNetworkSlot and push, are not modelled.
- EgressCheck.Check: the authority of a request is already split into host and port; certificate checks and proxy readiness are one verdict of Apply.
- EgressRules.MatchingEgressRule: case folding and blanks are ASCII.
- Pagination.CursorRoundTrip: the timestamp format and base64 are not modelled beyond being readable back.
- Pagination.List: filters and totals of the listing are not modelled; the snapshot listing is the same page in descending order.
- BootIndex.InspectBuilt: descriptor digests are checked for being present, not for their syntax; JSON and nested-index reading are one resolved descriptor.
- SharedServices.Capacity.Reserve: integers are unbounded; the subtractions of the original stay in range for non-negative limits.
- Heap order inside the slot allocator and the ring buffer of the queue are modelled by what they return.
- VMM drivers, volume backends, CNI and containerd: success or failure of each call only.
