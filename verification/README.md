# Mayhem's safety machinery, verified

Mayhem injects faults into containers and Kubernetes objects and promises to take
every one of them back. This project models the code that promise rests on, and
proves what it keeps and exactly when it fails to:

- **Undo of controller-level faults** (`Snapshots`, `SnapshotRuns`, `SnapshotExecutor`,
  `FaultPatches`, `Secrets`): the original spec is written to an annotation on the object, the
  object is mutated, and undo merges the stored spec back. Every state between two
  kubectl calls is a place to crash.
- **Fault leases** (`Leases`, `Numerals`): who may touch a target, over every run of
  successive clients on one sink.
- **The agent session** (`Watchdog`, `Session`, `Protocol`): JSON-RPC frames, the
  request handlers, the serve loop, and a watchdog whose sweep yields at each undo.
- **Configuration** (`Documents`, `DeepMerge`, `ConfigLayers`, `Accumulator`): the
  in-place recursive merge, the layers folded in order, provenance, and the accumulator
  that folds them on the heap.
- **Planning and grading** (`Impact`, `Dependencies`, `Selection`, `ShellQuote`,
  `Grading`): the impact gate, the dependency planner and its offline counterpart,
  pod selection, shell quoting and suite grading.

`Interleaving` is the agent as one system, one kubectl call at a time: the request being
served runs its injection or undo on one thread and the watchdog's sweep its undo on
another, and a lease is registered only after its injection has returned. It rests on
`ExecutorCalls`, the executors call by call and what two of them can do to one object,
and on `Recovery`, whole sweeps on the cluster, in which the undo a sweep awaits is the
undo that changes the cluster and decides how the lease is filed.

Code that computes is modelled as functions, code that updates state as classes and
methods with loops, each method proved against a function of the old state; the
lemmas are about those functions.

## Assumptions

- A strategic-merge patch is a recursive merge of mappings. Lists are leaves, except
  that a list merged by name stands for a mapping keyed by name. No patch here holds
  a `null`. A leaf is its JSON text.
- A kubectl call that exits non-zero has no effect. Pausing a rollout sets the key
  `paused` of the spec and resuming drops it.
- Nothing but the modelled calls touches an object while a fault is on it.
- Times are real numbers and the lease clock never runs backwards. Lease clients
  follow one another; two at once are the counterexample `Leases.TwoClientsCollide`.
- The watchdog has one runner, and a sweep is not cancelled. The serve loop takes one
  line at a time, so one request and one undo of the sweep are at work at most. Two
  executors look for the same kinds of objects or for none in common.
- A listing of several kinds is one listing of the objects of all of them.
- A probe of a container always gives the same answer, except in `Impact.ScanPlanFaults`
  and `Impact.UncountedVerdicts`. The gate's fixed tables are parameters, so the results
  hold for any tables.

## What turned out to fail

Each is a lemma below, with a concrete or an exact condition.

- Undo whose listing of annotated objects fails reports success, and its lease is filed
  as expired though nothing was undone (`Recovery.ExpiredExactly`).
- An undo that the sweep awaits for another lease of the same kinds may come between the
  snapshot and the mutation of an injection. It patches nothing new and clears the
  annotation, and then the mutation lands: with no call failing and nothing raised, both
  leases are filed as expired and the object stays mutated, with nothing to restore it
  from (`Interleaving.RaceLosesFault`). It is harmless exactly when the mutation comes
  before the undo's first writing call, says nothing new, or is a pause that comes before
  the undo's patch on an object with a pause marker of its own
  (`ExecutorCalls.OverlapExactly`).
- Undo that cannot read the snapshot takes the annotation for stale, clears it and
  reports success: the original spec is gone (`Snapshots.UnreadSnapshotIsLost`).
- Injecting into an object that is already mutated overwrites the only copy of its
  original spec (`Snapshots.InjectKeepsAnchor`).
- The restore is "faithful", as the executor's documentation has it, only for patches
  that write no new key (`Snapshots.RestoreIsExact`). A Service cut off by a selector
  label it did not have stays cut off after undo (`FaultPatches.SelectorLabelStays`),
  and a pending claim is given back only if it already had the fault's own label
  (`FaultPatches.PendingClaimTakenBack`).
- The result of resuming a paused rollout is ignored: if it fails, the annotation goes
  and the rollout stays paused (`Snapshots.LostResume`).
- Service, HorizontalPodAutoscaler and ConfigMap faults mutate even when the snapshot
  was not written (`Snapshots.UncheckedInjectKeepsAnchor`); the snapshot of an empty
  ConfigMap is not its data (`Snapshots.ConfigMapRestored`); a failed CoreDNS restart
  clears the snapshot of a mutated configuration (`Snapshots.DnsInjectKeepsAnchor`).
- The Secret fault keeps its snapshot on the pod, so a second Secret of one pod loses
  the first (`Secrets.SecondSecretLosesFirst`), and a recreated Secret lacks all but
  type and data (`Secrets.RecreatedIsOriginal`).
- "The last layer that gives a leaf wins" is the rule of the configuration only where no
  later layer has a mapping (`ConfigLayers.LastLeafDecides`). A policy
  profile silently replaces the blast radius a file asked for
  (`ConfigLayers.PolicyReplacesSections`), while a flag for a policy section conflicts
  with it even when it has no value and would otherwise be no flag
  (`ConfigLayers.LoadsExactly`).
- A lease renewed while it is pending in a sweep is undone before its new deadline, by
  the clock the sweep took when it started (`Watchdog.RenewedWhilePending`).
- An error reply to nobody loses its `id: null` on the wire, and this protocol's own
  decoder refuses it, where section 5 of JSON-RPC 2.0 requires the member
  (`Protocol.RoundTrip`).
- The serve loop promises one response per line: that holds only without notifications
  and responses (`Session.EveryLineExactly`). A line that is not valid UTF-8 raises a
  `ValueError` the loop does not catch and ends `serve`, which then still owes its own
  reply and all later ones (`Session.SettlesExactly`). `serve_sync` catches it and goes on
  with the same server in `_serve_blocking`, line by line.
- The bypass map leaves out containers that could not be reached, except for host
  tooling, refused faults and clock changes under a rootless engine
  (`Impact.UnreachableIsAttempted`). A scan can report the engine as never reached and
  still judge a fault by what is in its container, because the gate probes again and its
  probe does not count (`Impact.UncountedVerdicts`). A remedy does not help a fault that requires a
  capability the mask has no bit for (`Dependencies.RemedySound`).

## Model

| member | source | states |
|---|---|---|
| `Snapshots.InjectKeepsAnchor` | src/mayhem/agents/executors.py:1963-1997 | At every crash point, and whichever calls fail, the object has its original spec or an annotation holding exactly it: if and only if it still had its original spec when injected, or the snapshot was never written. |
| `Snapshots.WriteAhead` | src/mayhem/agents/executors.py:1963-1997 | Injecting into an unannotated object keeps that invariant unconditionally. |
| `Snapshots.UncheckedInjectKeepsAnchor` | src/mayhem/agents/executors.py:2333-2335 | The executors that ignore the result of writing the snapshot keep the invariant exactly when a written snapshot holds the spec, and a mutation without a snapshot says nothing the object does not have already. |
| `Snapshots.UncheckedMutatesExactly` | src/mayhem/agents/executors.py:2333-2344 | Their object ends with the mutated spec exactly when its read and its mutation went through, and otherwise with the spec it had; and with the snapshot if that was written, unless cleared after a failure. |
| `Snapshots.ConfigMapRestored` | src/mayhem/agents/executors.py:2849-2855 | A corrupted ConfigMap gets its data back from a clean undo exactly when it was not empty. |
| `Snapshots.DnsInjectKeepsAnchor` | src/mayhem/agents/executors.py:2770-2779 | The CoreDNS executor keeps the invariant exactly unless the restart fails after a patch that says something new and the annotation is then cleared. |
| `Snapshots.UndoKeepsAnchor` | src/mayhem/agents/executors.py:1832-1859 | Undo keeps the invariant at every crash point exactly unless its last call clears the annotation of an object whose snapshot could not be read though it is not at its original, or that has a key the original lacks. |
| `Snapshots.UnreadSnapshotIsLost` | src/mayhem/agents/executors.py:1842-1848 | For every mutated object: a failed read of the snapshot makes undo report success, clear the annotation and lose the original spec. |
| `Snapshots.RestoreIsExact` | src/mayhem/agents/executors.py:2290-2293 | Mutating and restoring gives the original spec if and only if the patch writes no key the original lacks, at each level where both are mappings; a paused rollout always comes back. |
| `Snapshots.LostResume` | src/mayhem/agents/executors.py:2290-2293 | With a failed resume the original is back exactly when it had a pause marker of its own. |
| `Snapshots.RestoreIsIdempotent` | src/mayhem/agents/executors.py:1874-1876 | Restoring a restored object again changes nothing. |
| `Snapshots.AltersExactly` | src/mayhem/agents/executors.py:2253-2257 | A fault leaves the spec as it was exactly when its patch says nothing new, or the rollout is paused already. |
| `FaultPatches.FieldTakenBack` | src/mayhem/agents/executors.py:2046-2060 | A fault that sets one field is taken back by undo exactly when the object had the field or a leaf above it, and otherwise leaves the field behind with its value. |
| `FaultPatches.ScaleTakenBack` | src/mayhem/agents/executors.py:2253-2255 | A scaled workload is taken back exactly when its spec states its replicas. |
| `FaultPatches.DisruptionBudgetTakenBack` | src/mayhem/agents/executors.py:2687-2706 | A mutated disruption budget is taken back exactly when it already stated maxUnavailable. |
| `FaultPatches.SelectorLabelStays` | src/mayhem/agents/executors.py:2361-2364 | A Service pointed at a selector label it did not have still selects on that label after undo. |
| `FaultPatches.QuotaTakenBack` | src/mayhem/agents/executors.py:2573-2595 | An exhausted quota is taken back by undo, whatever the limit was raised or lowered to. |
| `FaultPatches.PendingClaimTakenBack` | src/mayhem/agents/executors.py:2623-2635 | A claim kept pending is taken back exactly when it named a storage class and its selector already had the label the fault adds. |
| `FaultPatches.ClaimPending` | src/mayhem/agents/executors.py:2623-2635 | Whatever the claim was, it then asks for a storage class and a volume label that do not exist. |
| `SnapshotRuns.CarefulExactly` | src/mayhem/agents/executors.py:1830-1859 | One injection or undo leaves a recoverable object recoverable at every crash point if and only if it is careful: an injection that writes a snapshot finds the object at its original and adds no key if it goes through, and an undo that clears the annotation may clear it. |
| `SnapshotRuns.RunsStayRecoverable` | src/mayhem/agents/executors.py:1830-1859 | Over every run of careful injections and undos of any objects, each stopped after any of its calls, every object is at its original or one undo away from it. |
| `SnapshotRuns.RunsRecover` | src/mayhem/agents/executors.py:1830-1859 | After any such run, as many undos as there are annotated objects, picking whichever they find, leave each with its original spec and no annotation. |
| `SnapshotRuns.CleanUndoIsLastState` | src/mayhem/agents/executors.py:1839-1859 | An undo whose calls all succeed reports success and ends in the restored, unannotated object. |
| `SnapshotRuns.AnyOrderDrains` | src/mayhem/agents/k8s_control.py:328-343 | As many undos as there are annotated objects restore each from its own snapshot exactly once and touch nothing else, whichever annotated object each of them picks. |
| `SnapshotRuns.NothingLeftToUndo` | src/mayhem/agents/executors.py:1833-1839 | After draining nothing is pending and draining again changes nothing. |
| `SnapshotRuns.DrainUndoesInject` | src/mayhem/agents/executors.py:1963-1997 | Injecting into any number of unannotated objects makes exactly those pending, and draining them gives back the very same cluster if and only if no patch wrote a key its target lacked. |
| `SnapshotExecutor.ApiObjects.FindAnnotated` | src/mayhem/agents/k8s_control.py:328-343 | An annotated object of the namespace and kinds is found exactly when the listing succeeds and there is one; it may be any of them. |
| `SnapshotExecutor.ApiObjects.Write` | src/mayhem/agents/k8s_control.py:298-325 | A call that fails leaves the object store as it was, and each call leaves one state behind where a crash may strike. |
| `SnapshotExecutor.ApiObjects.Inject` | src/mayhem/agents/executors.py:1963-1997 | The store goes through exactly the states the invariant is proved about, in their order, and success is reported exactly when the mutation went through. |
| `SnapshotExecutor.ApiObjects.InjectOnce` | src/mayhem/agents/executors.py:1963-1997 | Injecting into an unannotated object leaves, in every state of the store it adds to the history, the object anchored to its old spec. |
| `SnapshotExecutor.ApiObjects.InjectUnchecked` | src/mayhem/agents/executors.py:2326-2344 | The same for the executors that ignore the result of writing the snapshot: success is reported if and only if the object was read and its mutation went through, and then it has the mutated spec, else the one it had. |
| `SnapshotExecutor.ApiObjects.InjectDns` | src/mayhem/agents/executors.py:2770-2780 | The same for the CoreDNS executor with its restart. |
| `SnapshotExecutor.ApiObjects.Restore` | src/mayhem/agents/executors.py:2290-2293 | Resuming then merging the stored spec: every intermediate state, and success exactly when the patch went through. |
| `SnapshotExecutor.ApiObjects.UndoFound` | src/mayhem/agents/executors.py:1840-1859 | The found object goes through exactly the undo states the invariant is proved about; success is reported also when the snapshot could not be read. |
| `SnapshotExecutor.ApiObjects.Undo` | src/mayhem/agents/executors.py:1830-1859 | Nothing changes and success is reported when nothing is found or the listing fails; otherwise exactly one annotated object is undone and all others are untouched. |
| `Secrets.InjectKeeps` | src/mayhem/agents/executors.py:2884-2903 | At every crash point every Secret of the namespace exists or is the one the note on the pod describes, exactly when a written note replaces none another Secret depends on, and an unwritten one leaves nothing needed to be deleted or cleared. |
| `Secrets.SecondSecretLosesFirst` | src/mayhem/agents/executors.py:2896-2898 | Deleting a second Secret mounted by the same pod always loses the first. |
| `Secrets.UndoKeeps` | src/mayhem/agents/executors.py:2910-2937 | Undo loses no Secret at any crash point, whichever calls fail, and when they succeed every Secret exists again and the note is gone. |
| `Secrets.RecreatedIsOriginal` | src/mayhem/agents/executors.py:2924-2933 | A recreated Secret is the original exactly when that had nothing besides its type and data. |
| `Secrets.RecreatedAgain` | src/mayhem/agents/executors.py:2924-2935 | Recreating a Secret that is there and as its note describes it changes nothing. |
| `Secrets.OthersStay` | src/mayhem/agents/executors.py:2924-2935 | Recreating touches no other Secret, and nothing the note leaves out. |
| `Secrets.CarefulExactly` | src/mayhem/agents/executors.py:2862-2937 | One injection or undo keeps every Secret at every crash point if and only if it is careful: an injection writes a note, or clears it without a deletion, only when no Secret is missing, and deletes without writing one only the Secret the old note describes; an undo always is. |
| `Secrets.RunsKeepSecrets` | src/mayhem/agents/executors.py:2862-2937 | Over every run of careful injections and undos, each stopped after any of its calls, one undo brings every Secret back. |
| `Secrets.PodSecrets.InjectSecret` | src/mayhem/agents/executors.py:2884-2903 | The namespace goes through exactly the states the invariant is proved about, and success is reported exactly when the Secret was there and its deletion went through. |
| `Secrets.PodSecrets.UndoSecret` | src/mayhem/agents/executors.py:2910-2937 | Likewise for undo; a note that cannot be read counts as nothing to undo and is kept. |
| `Recovery.ExpiredExactly` | src/mayhem/agents/watchdog.py:84-95 | A lease is filed as expired exactly when its undo did not raise, and found nothing (also because the listing failed), could not read what it found, or patched it. |
| `Recovery.RaisedPartway` | src/mayhem/agents/watchdog.py:84-93 | An undo that raises leaves the object it found as its last writing call did, and every other object alone. |
| `Recovery.UndoOwes` | src/mayhem/agents/k8s_control.py:328-343 | A clean undo for one lease, whichever annotated object it picks, leaves every other annotated object owed by a different other lease whose executor would look for it. |
| `Recovery.SweepInOrder` | src/mayhem/agents/watchdog.py:80-95 | Whatever calls fail and wherever undos raise, a sweep takes the cluster through the undos of the due leases in order, keeps exactly the others, and files the due ones by how those undos ended. |
| `Recovery.FiledByItsOwnUndo` | src/mayhem/agents/watchdog.py:84-95 | Each due lease is filed by how its own undo ended on the cluster its predecessors in the sweep left. |
| `Recovery.UndosTakeBackAll` | src/mayhem/agents/executors.py:1830-1859 | Clean undos, one per lease and each looking for the kinds of its own executor, restore all that the leases owe, whichever annotated object each of them picks. |
| `Recovery.SweepRestoresCluster` | src/mayhem/agents/watchdog.py:77-100 | With every annotated object owed by one of the due leases, each with the kinds of its own executor, a sweep whose undos succeed files every lease as expired and leaves the cluster as it was before the faults if and only if no fault wrote a key its target lacked. |
| `ExecutorCalls.UndoAlone` | src/mayhem/agents/executors.py:1830-1859 | The calls of an undo, one after another with nothing in between, leave the cluster and give the result of the undo as one step, whichever of them fail. |
| `ExecutorCalls.InjectAlone` | src/mayhem/agents/executors.py:1963-1997 | The calls of an injection, one after another with nothing in between, leave the cluster and give the result of the injection as one step, whichever of them fail. |
| `ExecutorCalls.OverlapExactly` | src/mayhem/agents/executors.py:1979-1986 | An undo of which any number of calls come between the snapshot and the mutation of an injection leaves the object at its original or one undo away from it, after every call, if and only if the mutation comes before the first call of the undo that writes, or says nothing new, or is a pause right after the resume of a spec with a pause marker of its own. |
| `ExecutorCalls.CallExactly` | src/mayhem/agents/executors.py:1830-1997 | One call of an executor, with another at work on the same object, keeps the object one undo away from its original and keeps what both rely on for their next calls, if and only if it is careful: a snapshot is taken only of an original, a mutation that alters anything finds the snapshot there and no undo past its patch, and an undo loses neither its read nor its resume. |
| `Interleaving.RunStaysSafe` | src/mayhem/agents/server.py:124-142 | Over every interleaving of the calls of injections, sweeps and undos, whatever calls fail and wherever executors raise: if each call is careful, then after each of them the watchdog invariant holds and every object is at its original or one clean undo away from it. |
| `Interleaving.NextCovers` | src/mayhem/agents/server.py:124-142 | Each clean move, a call, a registration or a step of the sweep, leaves every annotated object owed by a lease of its own whose executor would look for it, which is outstanding or has its injection under way, as long as no undo of the sweep that would look for an injection's object is at work beside it. |
| `Interleaving.RunCovered` | src/mayhem/agents/watchdog.py:53-100 | So it is after every call of any such run from rest. |
| `Interleaving.NothingOutstandingNothingMutated` | src/mayhem/agents/watchdog.py:77-100 | After every call of any such run of faults that can be taken back, the cluster is exactly what it was at first whenever no lease is active or being compensated and no injection is under way. |
| `Interleaving.RaceLosesFault` | src/mayhem/agents/watchdog.py:84-95 | Without that separation it is not: a run of clean moves in which both leases end up expired and nothing is outstanding or under way, but the object is mutated and has no snapshot, for every patch that alters it. |
| `Numerals.DigitsRoundTrip` | src/mayhem/agents/lease_client.py:24-25 | Reading the decimal digits of a number gives the number. |
| `Numerals.PaddedRoundTrip` | src/mayhem/agents/lease_client.py:24-25 | Parsing a zero-padded number gives the number, at any width and beyond it. |
| `Numerals.SignedRoundTrip` | src/mayhem/agents/sinks.py:50-56 | A sign in front of the digits counts. |
| `Numerals.UnderscoreSkipped` | src/mayhem/agents/sinks.py:50-56 | Single underscores between the digits do not. |
| `Numerals.SpacesAround` | src/mayhem/agents/sinks.py:50-56 | White space around the number is ignored. |
| `Leases.SequenceOfLeaseId` | src/mayhem/agents/sinks.py:50-56 | The sink reads from a minted lease id exactly the number it was minted from, beyond eight digits too. |
| `Leases.NextIdIsFresh` | src/mayhem/agents/lease_client.py:36-39 | Once the counter bounds the sequences in the sink, the next id is stored nowhere, whatever other ids there are. |
| `Leases.InMemoryLeaseSink.NextSequence` | src/mayhem/agents/sinks.py:48-57 | The high-water mark bounds every sequence in the sink and, unless it is zero, is one of them. |
| `Leases.InMemoryLeaseSink.Save` | src/mayhem/agents/sinks.py:39-40 | Exactly the entry of that id is replaced. |
| `Leases.LeaseClient.constructor` | src/mayhem/agents/lease_client.py:33-39 | A new client continues from the high-water mark of its sink. |
| `Leases.TransitionKeeps` | src/mayhem/domain/leases.py:136-165 | A transition refuses, or reaches its target state from a state that is not a safe terminal, keeping id, targets, creation time and ttl, and meeting the lease invariants. |
| `Leases.LeaseClient.AcquireLease` | src/mayhem/agents/lease_client.py:45-97 | The counter advances even when refused; past-ttl holders are reaped even when another holder refuses; the store and the answer are those of the acquisition the next rows and the run theorems are about. |
| `Leases.LeaseClient.ReapOverlap` | src/mayhem/agents/lease_client.py:77-88 | The loop reaps every overlapping past-ttl lease the sink lets it reap, touches no other, and returns exactly the holders still within their ttl. |
| `Leases.LeaseClient.ExpireQuietlyInSink` | src/mayhem/agents/lease_client.py:99-103 | A reap expires the lease durably or leaves the sink as it was. |
| `Leases.LeaseClient.MoveLease` | src/mayhem/agents/lease_client.py:105-136 | A refused or unknown transition leaves the sink as it was; an accepted one replaces that lease alone. |
| `Leases.ReapedExactly` | src/mayhem/agents/lease_client.py:77-103 | After an acquire, a stored lease that has a wanted target and is past its deadline is expired, as of now and with mechanism past-ttl, if and only if the sink takes the reap and it was pending, active or dirty; every other stored lease is as it was. |
| `Leases.GrantedExactly` | src/mayhem/agents/lease_client.py:45-97 | An acquire is granted exactly when the ttl is not negative and no lease within its own has a wanted target, and otherwise refused with the ids of exactly those that do; what is granted is a new pending lease on the terms asked for, under the next id, and it is stored. |
| `Leases.MovesExactly` | src/mayhem/domain/leases.py:30-165 | Which moves a valid lease can make, state by state, transition table and validator together, and what each records. |
| `Leases.MoveStored` | src/mayhem/agents/lease_client.py:105-136 | A move is stored exactly when the lease is known and can make it, under its own id; otherwise nothing changes and the error tells which. |
| `Leases.StepKeepsInv` | src/mayhem/agents/lease_client.py:45-136 | Every step of a client, and every change of client, keeps: sequences are bounded by the counter and distinct, and of two live leases that share a target the older one was past its deadline when the younger was granted. |
| `Leases.RunKeepsInv` | src/mayhem/agents/lease_client.py:45-136 | That invariant holds after every step of every run. |
| `Leases.MutualExclusion` | src/mayhem/agents/lease_client.py:77-97 | Over all runs of successive clients with a monotone clock, of two live leases that share a target at most one is within its ttl, now or at any later instant, even when reaps fail. |
| `Leases.YoungerGrantedAfterDeadline` | src/mayhem/agents/lease_client.py:80-88 | The older one's deadline was strictly before the instant the younger one was granted. |
| `Leases.AcquireNeverOverwrites` | src/mayhem/agents/lease_client.py:59-97 | No acquire, refused or granted, overwrites a stored lease; a granted one adds exactly the next id, which was free. |
| `Leases.StepNeverOverwrites` | src/mayhem/agents/lease_client.py:33-136 | Every step keeps every stored lease under its id with its terms, and never takes one out of a safe terminal. |
| `Leases.RunNeverOverwrites` | src/mayhem/agents/lease_client.py:33-136 | The same over any chain of successive clients, from a sink with any ids in it, with the counter in use bounding every sequence. |
| `Leases.StaleClientOverwrites` | src/mayhem/agents/lease_client.py:36-39 | A client whose counter is behind the sink overwrites a lease exactly when the id it mints next is taken. |
| `Leases.TwoClientsCollide` | src/mayhem/agents/lease_client.py:36-39 | Two clients taken from one empty sink mint the same id, and the second lease replaces the first. |
| `Watchdog.NextKeeps` | src/mayhem/agents/watchdog.py:71-95 | Each registration and each stretch of a sweep between two awaits keeps the invariant and the set of ids the watchdog answers for, plus the one registered. |
| `Watchdog.Conservation` | src/mayhem/agents/watchdog.py:71-95 | Through any interleaving, every registered id is active, being compensated or final, and nothing else is; and an undo runs before its entry's deadline, by the clock its sweep took when it started, exactly when the id was registered again, with a deadline after that clock, while pending in that sweep. |
| `Watchdog.RenewedWhilePending` | src/mayhem/agents/watchdog.py:80-85 | Such an early undo does happen. |
| `Watchdog.UninterruptedSweep` | src/mayhem/agents/watchdog.py:77-100 | A sweep with no registration in between leaves exactly the entries with a deadline after the clock, undoes each other one exactly once, and files it as expired if its undo returned ok and dirty otherwise. |
| `Watchdog.SweepOut` | src/mayhem/agents/watchdog.py:81-95 | The same from any point of the sweep on. |
| `Watchdog.FinalAt` | src/mayhem/agents/watchdog.py:94-95 | Each undone lease is filed by its own outcome. |
| `Watchdog.AgentWatchdog.RegisterLease` | src/mayhem/agents/watchdog.py:64-72 | The deadline is the clock plus the ttl, a negative ttl counting as none, and only that id's entry is replaced. |
| `Watchdog.AgentWatchdog.Listing` | src/mayhem/agents/watchdog.py:80 | The list names exactly the entries whose deadline has come, each once. |
| `Watchdog.AgentWatchdog.Tick` | src/mayhem/agents/watchdog.py:110-116 | Whatever the runner does between two awaits is one enabled event of the state machine. |
| `Watchdog.AgentWatchdog.SweepLeases` | src/mayhem/agents/watchdog.py:77-100 | A whole sweep, whatever registrations land at each await, is the run of the state machine made of those events, and ends idle with the invariant. |
| `Protocol.RequestRoundTrip` | src/mayhem/agents/protocol.py:79-103 | Decoding an encoded request gives it back. |
| `Protocol.NotificationRoundTrip` | src/mayhem/agents/protocol.py:79-103 | Decoding an encoded notification gives it back. |
| `Protocol.ResponseRoundTrip` | src/mayhem/agents/protocol.py:67-103 | Decoding an encoded response gives it back if it has an id, and refuses it otherwise. |
| `Protocol.RoundTrip` | src/mayhem/agents/protocol.py:79-103 | Over all valid frames, decoding inverts encoding exactly unless the frame is a response to nobody. |
| `Protocol.DecodedIsValid` | src/mayhem/agents/protocol.py:72-76 | Whatever decodes as a response carries exactly one of result and error. |
| `Protocol.DecodedExactly` | src/mayhem/agents/protocol.py:84-103 | A value decodes into a frame if and only if it is an object that stands for it: the members of that kind and no others, the version 2.0 if any, an id that is a number or a string, parameters that are an object or left out, null as absence of a result or error; all else is refused with code -32600. |
| `Protocol.EncodedVersion` | src/mayhem/agents/protocol.py:79-81 | Every frame is written with version 2.0. |
| `Protocol.LineDecoded` | src/mayhem/agents/protocol.py:84-95 | A line that is no JSON is refused with code -32700, and any other is what its value decodes to. |
| `Session.TaskIdInjective` | src/mayhem/agents/server.py:119-120 | Different counters give different task ids, beyond six digits too. |
| `Session.NextTaskIdIsNew` | src/mayhem/agents/server.py:119-123 | The id a new task gets has never been handed out. |
| `Session.NextKeeps` | src/mayhem/agents/server.py:104-160 | Every event keeps the session invariant, forgets no task and no injected lease, and a cancel or the end of an undo-phase task leaves the watchdog alone. |
| `Session.SessionInvariant` | src/mayhem/agents/server.py:104-160 | Over any interleaving of requests, executor calls and sweeps, the watchdog answers for exactly the leases whose inject-phase execution returned ok, and the task ids in use are exactly the first ones of the counter. |
| `Session.DispatchedExactly` | src/mayhem/agents/server.py:54-125 | A request is an injection exactly when it carries its context, asks to execute a non-empty fault some executor is for under a lease that validates, and its phase is inject or not given; an undo exactly when its phase is anything else; and likewise what counts as a cancellation of which task and as an inspection. |
| `Session.RefusedExactly` | src/mayhem/agents/server.py:54-118 | Which requests are refused, and with which code: a missing context before anything else, an unknown method, or a handler that raises because fault, executor or lease is not there. |
| `Session.PhaseDecides` | src/mayhem/agents/server.py:119-150 | A runnable request whose executor reports success registers its lease, with its ttl from that moment, if it asks for an injection or gives no phase; otherwise only the runner's turns change the watchdog. Its task ends done or failed under the next id. |
| `Session.AnsweredExactly` | src/mayhem/agents/server.py:120-160 | The reply to an execution tells its task, that it is done and whether it went well, or is an internal error if it raised; the reply to a cancellation tells whether the task was known. |
| `Session.CancelMarks` | src/mayhem/agents/server.py:152-160 | A cancellation marks the task it names, if that is known, whatever state it was in, and nothing else. |
| `Session.ReplyIsValid` | src/mayhem/agents/server.py:54-81 | Every reply is a valid response under the request's id, and an error with its code exactly when a handler refused or raised. |
| `Session.AgentServer.constructor` | src/mayhem/agents/server.py:38-50 | A new server meets the session invariant. |
| `Session.AgentServer.BeginTask` | src/mayhem/agents/server.py:119-123 | A new running task under an id never used before. |
| `Session.AgentServer.EndTask` | src/mayhem/agents/server.py:131-144 | The lease goes to the watchdog exactly when the phase is inject and the outcome ok; a raising executor leaves the task failed. |
| `Session.AgentServer.TaskExecute` | src/mayhem/agents/server.py:104-150 | The session goes through the start of the task, whatever the watchdog did meanwhile, and its end, and keeps the invariant. |
| `Session.AgentServer.TaskCancel` | src/mayhem/agents/server.py:152-160 | A known task is marked cancelled whatever its state, an unknown one changes nothing, and the watchdog is untouched. |
| `Session.AgentServer.Handle` | src/mayhem/agents/server.py:54-81 | One valid reply under the request's id, whatever happens, with its error code or none; a successful injection, by the phase the request gives, registers its lease, and otherwise only the runner's turns change the watchdog. |
| `Session.AgentServer.ServeLine` | src/mayhem/agents/server.py:190-204 | A line is answered from the session the runner left, and takes it through exactly that request's events; notifications and responses do neither. |
| `Session.AgentServer.Serve` | src/mayhem/agents/server.py:179-204 | Lines are served in order up to the first unreadable one, each from the session it finds when it comes; the watchdog goes on sweeping while the loop waits for a line, during an executor call, and at the end of input; the session and all that is written follow. |
| `Session.ServedSettles` | src/mayhem/agents/server.py:179-204 | The lines served get exactly one frame per request line, with its id, and per line that is no frame, without one; none for notifications and responses; in line order. |
| `Session.ServedInTurn` | src/mayhem/agents/server.py:179-204 | Each line is served from the session the line before it left, and the first from the one there was. |
| `Session.LineCarried` | src/mayhem/agents/server.py:190-204 | Serving a request line gives one reply under its id; a runnable request takes effect by the phase it gives, and a cancellation marks its task. |
| `Session.SettlesExactly` | src/mayhem/agents/server.py:179-204 | What the loop writes is all that is owed to all lines, an undecodable one owed a frame without an id, if and only if no line is unreadable. |
| `Session.EveryLineExactly` | src/mayhem/agents/server.py:180 | Every line gets exactly one response if and only if none is unreadable, a notification or a response. |
| `Documents.MergeRestores` | src/mayhem/config.py:220-225 | Merging a document over another gives exactly the first if and only if the other has no key it lacks, at each level where both are mappings. |
| `Documents.MergeIdempotent` | src/mayhem/config.py:220-225 | Merging the same document again changes nothing. |
| `Documents.MergeAgrees` | src/mayhem/config.py:220-225 | Merging a document changes nothing if and only if it says nothing new. |
| `Documents.RestoreExactness` | src/mayhem/agents/executors.py:1874-1876 | Patching a document and merging the snapshot back gives the snapshot if and only if every key the patch writes, at each level where both are mappings, already exists in it; restoring again never changes the result. |
| `Documents.MergeAssociates` | src/mayhem/config.py:220-225 | Left and right folding of three documents agree exactly when no leaf of the middle one stands between two mappings whose contents would blend. |
| `Documents.LeafBreaksAssociativity` | src/mayhem/config.py:220-225 | A leaf between two mappings makes the two foldings differ. |
| `Documents.ReadMerged` | src/mayhem/config.py:220-225 | At every path a merged document reads as the upper one if that says anything there, and as the lower one otherwise (below a leaf there is as little as at a missing key). |
| `DeepMerge.MergedContents` | src/mayhem/config.py:220-225 | The heap left behind by the in-place merge stands for the pure merge of the two documents. |
| `DeepMerge.MergedFootprint` | src/mayhem/config.py:220-225 | The result is made of dictionaries of the two documents only. |
| `DeepMerge.MergedTreeShaped` | src/mayhem/config.py:220-225 | Merging two separate trees leaves a tree, so the next layer can be merged over it. |
| `DeepMerge.MergedPart` | src/mayhem/config.py:409-419 | Merging some fields of one tree over another leaves a tree made of dictionaries of both, standing for the pure merge. |
| `DeepMerge.MergeEntry` | src/mayhem/config.py:221-225 | One entry is merged in place when both sides are mappings and stored by reference otherwise, touching only the destination and that entry's own dictionaries. |
| `DeepMerge.DeepMerge` | src/mayhem/config.py:220-225 | In whatever order the keys come, the merge terminates, changes only the destination's own dictionaries, leaves the source's contents alone and yields exactly the pure merge. |
| `Accumulator.LayerAccumulator.constructor` | src/mayhem/config.py:370-377 | A new accumulator holds the API version, default provenance and no profiles. |
| `Accumulator.LayerAccumulator.AbsorbBlock` | src/mayhem/config.py:391-400 | Same-named profiles are replaced whole, and a name already declared in the layer is refused. |
| `Accumulator.LayerAccumulator.CollectProfiles` | src/mayhem/config.py:381-400 | The profile blocks are refused exactly when the layer rule says, and otherwise recorded over the earlier profiles. |
| `Accumulator.LayerAccumulator.AbsorbProfiles` | src/mayhem/config.py:379-406 | The profiles, their validated form in the document and their provenance change exactly as the accepted declarations say; a refused layer is an error, and which one. |
| `Accumulator.LayerAccumulator.AbsorbPlain` | src/mayhem/config.py:409-420 | In place, the plain fields are merged over the document on the heap, sharing the layer's dictionaries; only the document's own dictionaries change, the layer still reads as before, and each field is attributed to it. |
| `Accumulator.LayerAccumulator.AbsorbDocument` | src/mayhem/config.py:408-421 | Absorbing a document on the heap is one step of the layer fold, or the error the layer rule gives. |
| `Accumulator.LayerAccumulator.AbsorbLayers` | src/mayhem/config.py:490-496 | Documents absorbed one after another leave the fold of all of them as they were read, although later ones write into dictionaries of earlier ones; those not absorbed yet are as they were. |
| `ConfigLayers.AcceptedProfiles` | src/mayhem/config.py:379-406 | Going through the profile keys one by one refuses a layer exactly when a key holds something other than a mapping or null, or the two share a name, with the first such error, and otherwise declares all blocks together. |
| `ConfigLayers.RefusedExactly` | src/mayhem/config.py:379-396 | A layer is refused for its profile blocks exactly when one holds something other than a mapping or null, or some name is in both, with the first such error. |
| `ConfigLayers.GivenExactly` | src/mayhem/config.py:379-420 | An accepted layer gives exactly the profiles under either key, whole, and every other field but the version, as it has them. |
| `ConfigLayers.AfterOneMore` | src/mayhem/config.py:408-421 | One more accepted layer is one more step of the fold. |
| `ConfigLayers.AbsorbSeqIsAfterLayers` | src/mayhem/config.py:490-496 | Loading the file layers in order, when none is refused, is the fold of the layers. |
| `ConfigLayers.AbsorbsExactly` | src/mayhem/config.py:490-496 | Layers are absorbed in order exactly as long as none is refused and the validator takes all profiles whenever a layer declares any; the first that fails gives the error. |
| `ConfigLayers.LastLayerDecides` | src/mayhem/config.py:408-421 | At every path the configuration reads as the last layer that says anything there: a leaf at or above it, or a mapping at it (below a leaf there is as little as at a missing key). |
| `ConfigLayers.SilentLayersKeep` | src/mayhem/config.py:408-421 | Where no layer says anything, what was there before stays. |
| `ConfigLayers.LastLeafDecides` | src/mayhem/config.py:415-419 | At every path, the last layer with a leaf there or above it decides what the configuration reads if and only if no later layer has a mapping there. |
| `ConfigLayers.MappingDisplacesLeaf` | src/mayhem/config.py:415-419 | An instance: an empty mapping displaces an earlier leaf. |
| `ConfigLayers.SourcesNameLastLayer` | src/mayhem/config.py:462-463 | Provenance names the last layer that supplied each top-level key, or declared target profiles. |
| `ConfigLayers.SourcesKept` | src/mayhem/config.py:462-463 | Provenance of a key no layer supplied stays as it was. |
| `ConfigLayers.ProfilesAreWhole` | src/mayhem/config.py:473-475 | Each target profile is the whole block of the last layer declaring its name, never a blend. |
| `ConfigLayers.TargetsAreValidated` | src/mayhem/config.py:475-479 | The target profiles in force are the validated form of all profiles together, as of the last layer that declared any. |
| `ConfigLayers.PolicyReplacesSections` | src/mayhem/config.py:352-355 | When a policy applies, the argument's or for want of one the environment's, and loading succeeds, both policy sections and their provenance are the built-in's, whatever the files asked for. |
| `ConfigLayers.PolicyInForce` | src/mayhem/config.py:482-500 | Which policy that is: a non-empty argument's, beside which the environment names no other; without one the environment's; and with neither, both sections read as the files and the flags say. |
| `ConfigLayers.LoadsExactly` | src/mayhem/config.py:482-509 | Loading succeeds if and only if argument and environment name no two policies, files and flags can all be absorbed, and a policy that applies is a known one with no `policy` in a file and no flag for either section beside it; two different names are refused as conflicting. |
| `ConfigLayers.PolicyStandsAlone` | src/mayhem/config.py:336-341 | Then no file layer set a policy, and no flag set either policy section. |
| `ConfigLayers.FlagsWin` | src/mayhem/config.py:501-509 | At every path about which a flag that has a value says anything, the loaded configuration reads exactly as it does. |
| `ConfigLayers.NullFlagIsNone` | src/mayhem/config.py:509 | A flag without a value changes nothing in a load that succeeds. |
| `ConfigLayers.NothingGiven` | src/mayhem/config.py:370-377 | With no files, flags or policy, the configuration is the API version alone and every section comes from the defaults. |
| `ConfigLayers.TargetsRead` | src/mayhem/config.py:379-406 | End to end: once a layer declares profiles, `targets` reads as the validated form of all profiles declared. |
| `ConfigLayers.LoadReads` | src/mayhem/config.py:482-512 | End to end: at every path that neither the policy nor the target profiles replace, the loaded configuration reads as the last of the files and the given flags that says anything there. |
| `Impact.SetBitSetsOne` | src/mayhem/agents/impact.py:261-263 | Setting a bit of the capability mask sets that bit and no other. |
| `Impact.SetBitsSetsThem` | src/mayhem/agents/impact.py:261-263 | Setting a set of bits sets exactly those besides the ones that were set. |
| `Impact.BitExactly` | src/mayhem/agents/impact.py:261-263 | A bit of the mask is the one of that weight, whatever the lower and the higher ones are. |
| `Impact.MissingNothing` | src/mayhem/agents/impact.py:468-477 | Nothing is missing exactly when the container has every required bin and capability and, if root is required, does not run as another known user. |
| `Impact.MissingNeed` | src/mayhem/agents/impact.py:468-477 | What is missing, need by need: a bin that is there under no name, python3 answering for python, a capability without its bit, and root for another known user. |
| `Impact.GateExactly` | src/mayhem/agents/impact.py:431-494 | Every verdict: whether the fault can take effect, whether that is known, and what is missing, for engine faults, faults without requirements, host tooling, the denied clock, an unreached container and a probed one. |
| `Impact.ScanPlanFaults` | src/mayhem/agents/impact.py:510-559 | Whatever each probe returns: one verdict per fault step in plan order, from the first answer for its container or, when that is none, from the gate's own probe; the engine is reported as probed exactly when some first answer was one. |
| `Impact.FirstAnswerDecides` | src/mayhem/agents/impact.py:550-558 | From the first step that looks into a container on, each fault there is judged by what that step found, if anything, and else by what the gate finds at its own moment; only the former counts as reaching the engine. |
| `Impact.UncountedVerdicts` | src/mayhem/agents/impact.py:459 | A scan that reports the engine as never reached still holds a verdict on what is in a container exactly when one of the gate's own probes was needed and answered. |
| `Impact.SteadyScan` | src/mayhem/agents/impact.py:510-559 | If the probes of each container all return the same, the scan gives the verdicts of probing afresh for each fault, and reports the engine as probed exactly when some container it was asked about was reached. |
| `Impact.ProvenOn` | src/mayhem/agents/impact.py:431-494 | A verdict proves a fault inert exactly when the fault is refused outright, lacks host tooling, is denied the clock, or lacks something in a container that was reached. |
| `Impact.BypassIsExact` | src/mayhem/agents/impact.py:562-577 | The bypass map of a scan holds exactly the faults proven inert, under their containers, each with its own verdict's reason. |
| `Impact.UnreachableIsAttempted` | src/mayhem/agents/impact.py:567-571 | A fault whose container was not reached is proven inert exactly when no container is needed to prove it: refused, host tooling, or the clock under a rootless engine. |
| `Impact.UnresolvedIsAttempted` | src/mayhem/agents/impact.py:531-542 | A fault that resolves to no container is never bypassed. |
| `Dependencies.SurveyContainers` | src/mayhem/agents/impact.py:735-767 | The loop with its probe cache books exactly what probing every time would. |
| `Dependencies.DependencyPlan` | src/mayhem/agents/impact.py:721-803 | One entry for exactly the containers with a fault that cannot take effect there or cannot be judged, made from that container's own gaps and its own probe. |
| `Dependencies.SurveyIsExact` | src/mayhem/agents/impact.py:757-767 | A gap is booked under a container exactly when some fault planned on it misses it there. |
| `Dependencies.BinsSplit` | src/mayhem/agents/impact.py:773-788 | The missing bins split into those for which the container's package manager, the first of the list that it has, has a package, and the rest; the packages are exactly those of the first kind. |
| `Dependencies.ReportedExactly` | src/mayhem/agents/impact.py:747-772 | The containers reported are exactly those on which some planned fault cannot take effect or cannot be judged. |
| `Dependencies.GrantsAreExact` | src/mayhem/agents/impact.py:776-777 | The capabilities to grant and the need for root are exactly those some planned fault misses. |
| `Dependencies.BlockedIsExact` | src/mayhem/agents/impact.py:752-766 | A container lists as unreachable exactly the faults planned on it when its probe failed, and as unfixable exactly the inert ones with nothing missing. |
| `Dependencies.RemedyKeeps` | src/mayhem/agents/impact.py:431-479 | Giving a container more never makes anything missing. |
| `Dependencies.RemediedMissing` | src/mayhem/agents/impact.py:468-477 | A container given all that is booked under it misses nothing of a requirement exactly when the mask has a bit for each capability required. |
| `Dependencies.RemedySound` | src/mayhem/agents/impact.py:721-803 | In a container given its planned and manual bins, its capabilities and root, every fault planned on it that is not unfixable can take effect, exactly unless it requires a capability the mask has no bit for. |
| `Dependencies.PossibleStaysPossible` | src/mayhem/agents/impact.py:431-479 | A fault that could already take effect still can. |
| `Dependencies.CompileRequirements` | src/mayhem/agents/impact.py:827-863 | The offline list is computed without any probe, as the join over the plan the next rows are about. |
| `Dependencies.CompiledIsExact` | src/mayhem/agents/impact.py:838-852 | A container's offline list has exactly the bins and capabilities its planned faults require, the bins split by whether any package is known for them. |
| `Dependencies.CompiledContainers` | src/mayhem/agents/impact.py:854 | The offline list has an entry for exactly the containers on which a fault with tooling requirements is planned. |
| `Dependencies.CompiledCoversSurvey` | src/mayhem/agents/impact.py:827-863 | Whatever a probe finds missing is on the offline list. |
| `Dependencies.OfflineCoversLive` | src/mayhem/agents/impact.py:827-863 | For every plan and every probe result, all a container's live plan asks for is on its offline list, and what can be installed live is on the installable side. |
| `Selection.SortSorts` | src/mayhem/agents/k8s_resolve.py:950 | Sorting orders the pods by key and loses and adds none. |
| `Selection.SortedIsUnique` | src/mayhem/agents/k8s_resolve.py:937-940 | Pods with distinct keys have only one sorted listing. |
| `Selection.ListingOrderIrrelevant` | src/mayhem/agents/k8s_resolve.py:937-950 | The order in which pods are listed does not matter. |
| `Selection.SelectsPrefix` | src/mayhem/agents/k8s_resolve.py:942-984 | Every mode but the random draw picks a prefix of the sorted eligible pods, and no pick or error depends on listing order. |
| `Selection.PicksExactly` | src/mayhem/agents/k8s_resolve.py:942-984 | How many of the eligible pods each mode picks: one, one drawn, all, exactly the count if there are as many, or the share rounded up, at least one and at most all; and which requests are refused, with what. |
| `Selection.AnyPodDrawn` | src/mayhem/agents/k8s_resolve.py:954-956 | Every eligible pod can be the one drawn. |
| `Selection.PercentageSizeBounds` | src/mayhem/agents/k8s_resolve.py:982 | A share of 0 < pct <= 100 is rounded up, is at least one and at most all. |
| `Selection.PercentageSizeMonotone` | src/mayhem/agents/k8s_resolve.py:982 | A larger percentage never gives a smaller share. |
| `Selection.SmallerIsPrefix` | src/mayhem/agents/k8s_resolve.py:959-983 | A smaller count or percentage picks a prefix of a larger one. |
| `Selection.ResolveMany` | src/mayhem/agents/k8s_resolve.py:830-857 | No eligible pod is an error; otherwise as many eligible pods as the mode asks for, in pick order, each with the container, or an error if any of them lacks it. |
| `ShellQuote.ReadsEscaped` | src/mayhem/agents/executors.py:1350-1352 | Inside single quotes the shell reads the escaped text as the text. |
| `ShellQuote.QuoteReadsBack` | src/mayhem/agents/executors.py:1350-1352 | For every string, a reader following sections 2.2.1 to 2.2.3 of the POSIX Shell Command Language reads its quotation as that one word. |
| `ShellQuote.JoinedReadsBack` | src/mayhem/agents/executors.py:1350-1352 | Quotations joined by spaces read back as the original list of words. |
| `Grading.CoverageForRun` | src/mayhem/cli/ci_cmd.py:1268-1278 | The loop computes the fold that the next rows are about. |
| `Grading.CoverageIsWorst` | src/mayhem/cli/ci_cmd.py:1180-1196 | A kind is recorded exactly when it was observed, with a state that was observed and none worse. |
| `Grading.CitationsAreComplete` | src/mayhem/cli/ci_cmd.py:1275-1277 | The citations kept for a kind are exactly those of its observations, each once. |
| `Grading.RecordedFailed` | src/mayhem/cli/ci_cmd.py:1268-1278 | A kind is recorded as failed exactly when some observation of it failed. |
| `Grading.RecordedPassed` | src/mayhem/cli/ci_cmd.py:1268-1278 | A kind is recorded as passed exactly when it was seen to pass and never merely executed, inconclusive or failed. |
| `Grading.RecordedOtherwise` | src/mayhem/cli/ci_cmd.py:1268-1278 | A kind that neither failed nor passed is recorded as inconclusive if it was ever that, else as executed if it was ever that, and else by its first observation. |
| `Grading.GradeIsExact` | src/mayhem/cli/ci_cmd.py:1281-1355 | A suite fails exactly when one of its kinds was seen to fail, and passes exactly when every one of them was seen to pass and none was seen executed, inconclusive or failed. |
| `Grading.GradeIgnoresOrder` | src/mayhem/cli/ci_cmd.py:1281-1355 | The grade does not depend on the order or the repetition of observations. |
| `Grading.FailureIsFinal` | src/mayhem/cli/ci_cmd.py:1183-1186 | No further observation turns a failure into anything else. |

## Left out

- DeepMerge.DeepMerge: requires each document to be a tree and the two to be apart; YAML anchors, which make one dictionary reachable twice, are not covered.
- Accumulator.LayerAccumulator.AbsorbProfiles: the validator is an input, its result a text that stands for the validated profiles; profile names are strings already; profile blocks are values, which nothing writes into; what a refused layer leaves behind is not stated.
- ConfigLayers.PolicyReplacesSections: the final schema validation of `load_config`, `_apply_env`, reading documents and the contents of the built-in profiles are not modelled; the environment is one more layer.
- Snapshots.UndoKeepsAnchor: the CoreDNS executor's own `undo` goes to its ConfigMap directly and restarts the deployment afterwards; its calls on the ConfigMap are the same, its restart and reported outcome are not modelled.
- Snapshots.UncheckedInjectKeepsAnchor: the repeated patches of the endpoint-flap fault and the metadata that the service_5xx fault stores besides the spec are not modelled.
- Secrets.InjectKeeps: one pod and its namespace; a pod that is itself replaced, taking its annotation along, is not modelled, nor are the refusals before the Secret is read.
- How an executor finds its object (owner walk, selectors, mounted volumes, the size check before the annotation) is not modelled: the object and the early refusal are inputs.
- Leases.LeaseClient.AcquireLease: undo operations and probes are present or absent, the other fields of a lease are left out, and validation of their contents is not modelled.
- Leases.InMemoryLeaseSink.NextSequence: the integer parser accepts ASCII text only, not other Unicode digits and spaces.
- Leases.LeaseClient.ReapOverlap: the overlapping leases are taken in any order, not in insertion order; the conflict names a set of holders.
- The SQLite lease sink, the janitor and heartbeats are not part of this model.
- Interleaving.NothingOutstandingNothingMutated: the executors that ignore the result of writing the snapshot, the CoreDNS and the Secret executors have no calls of their own in the joint runs; what a mutation patches is an input, also where the code computes it from the object it read.
- Watchdog.AgentWatchdog.SweepLeases: cancellation inside a sweep and two sweeps at once are not modelled; neither is the wall clock.
- Session.AgentServer.Handle: the contents of the read-only replies, the wording of errors and the detail of an outcome are not modelled; the lease validator is an input.
- Session.AgentServer.Serve: the stream itself and the blocking fallback are not modelled; the executor call is one await whose result is an input.
- Protocol.RoundTrip: JSON text, floating-point numbers and pydantic's coercions are not modelled; a line is the value found in it.
- Impact.ScanPlanFaults: missing tooling is a set, without the order of the report; the container a fault resolves to is an input; probing, the engine's rootless check and the install commands are not modelled.
- Selection.PercentageSizeBounds: over the reals; floating-point rounding of the percentage is not modelled.
- Selection.SelectsPrefix: the seeded random draw is a number; the scope checks before it, node selection by labels and parsing of selectors and of /proc are not modelled.
- Grading.CoverageForRun: the repositories the observations come from, and the wording of a grade, are not modelled.
- Payload and manifest bodies, the executors with trivial undo, the static fault tables and the views of the command line would only add easy members.
