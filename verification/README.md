# LinUwUx state machines in Dafny

LinUwUx is a preload runtime that lets a Reflex client run under Wine: it answers control CPUID
leaves, patches the KUSER shared page, and decides at the SIGSYS boundary whether a trapped syscall
goes to Wine or to a Reflex handler. Around the platform glue sit a number of small lock-free
protocols, index-backed tables and streaming scans. This project models those and proves what they
keep over every run or every input.

`dafny verify dfyconfig.toml` checks everything. There are no assumptions: every lemma has a proof.

## How it is laid out

Code that several threads execute at once is a labelled transition system: a state, an event type,
`Enabled` / `After`, and `IsRun(states, events)` for the finite runs from the initial state. One event
is one atomic load, store, compare-exchange or fetch-add of one thread, in sequentially consistent
order; a weak compare-exchange may fail spuriously. Each such module has an inductive invariant, a
`RunKeepsInv` lemma, and theorems quantified over all runs. Code that runs alone (or under a lock) is a
class or a method with loops, proved against a mathematical specification that is written separately.

| file | component |
|---|---|
| `Common.dfy` | the option type, bytes and routes the others share |
| `PatchState.dfy`, `PatchRuns.dfy` | KUSER patch arbiter: the object, then every interleaving of `patch` |
| `GuardedPatch.dfy` | the page guard around `patch`, across arbitrary forks |
| `ReflexState.dfy`, `ReflexRuns.dfy`, `ReflexAlone.dfy`, `ReflexRace.dfy` | control leaves and syscall routing: sequential history, every interleaving, the two agreeing for one thread, and what a racing promotion carries |
| `MarkerRuns.dfy`, `MarkerHistory.dfy` | Route/Replay marker table under every interleaving, and the per-thread life it implies |
| `Redirect.dfy` | the SIGSYS decision and whole sessions of bridge calls and traps |
| `PendingFrees.dfy` | hash-indexed duplicate-free history against a plain ring |
| `Trampolines.dfy`, `StubSet.dfy` | the two open-addressed tables |
| `SignalSlot.dfy`, `CallerCache.dfy`, `EventRing.dfy` | reader-counted reclamation and the two version-checked tables |
| `ThunkTails.dfy`, `ImportScan.dfy`, `Registry.dfy` | buffer rewriting and streaming scans |

## What the main results say

* **Patch arbiter.** `completion_state` survives compare-exchange retries, yet every `patch` that reaches
  `apply` behaves exactly like an undisturbed call that started from the word its compare-exchange
  replaced (`ApplyLinearizes`). After the first success the word is an APPLYING word or READY for the
  latest success. With the guard, no call ever starts on, or waits for, an APPLYING word, even in a
  child that inherited one, and a READY word is always owed to a successful apply in the same line of
  processes (`ReadyWasApplied`).
* **Routing.** Sequentially, `route_syscall` is a function of the accepted leaves, and the atomic steps taken
  by one thread alone are that sequential machine (`LeafAlone`, `RouteAlone`). Concurrently, a
  transitional routing word has exactly one owning thread, all words move forward only, and every
  returned target was registered. Sequentially a promotion carries over the last accepted handler.
  Concurrently it need not: `AcceptedHandlerCanBeLost` is a run, for any two handlers, in which the one
  accepted last is stored after the promotion's read and the promotion publishes the other.
  `CarriesIffNobodyPending` is the exact condition: at the read, every continuation publishes the handler
  accepted last if and only if no other thread has then passed the resume path's routing check with a
  different handler.
* **Markers.** A consume or cancel answers, and leaves of its thread's markers, exactly what it would with
  no other thread present, and a bridge call retires exactly what it would (`JobsAreIsolated`). The one thing threads share is room: an arming
  call ends Armed, or Full after seeing every slot of the table taken during that very call
  (`FullMeansEverySlotTaken`), so it ends Armed whenever some slot stays free (`ArmsWhileASlotIsFree`). All jobs are wait-free.
  Hence each thread's part of a run is a sequential life (`RunsAreLives`). In every life a consume
  answers Route if and only if the marker was armed and left
  alone, Replay if and only if it was then routed once and left alone, with the registers saved there.
  Live markers in arming order have strictly decreasing stacks. In every session the registers a replay
  restores are those of the one outstanding call with the same stack and address.
* **Signal slot.** No reader touches released memory. A reset takes down the very snapshot it delivered if
  and only if that snapshot has not been released since it was loaded (`ResetClearsDelivered`); with
  address reuse it can otherwise take down a newer action (`ResetCanClearAnother`).
* **Refinement.** The indexed history, the stub set, the chunked import scan, the window matcher and the
  tail rewriter equal a ring, a set, a word-by-word scan, a substring condition and a fixpoint.

## Model

| member | source | states |
|---|---|---|
| `PatchObject.PatchState.RecoverAfterFork` | protocol/kuser.rs:174-183 | words 1, 4 and 7 (APPLYING) become 3, 6 and 9 (FAILED of the same recipe), no other word moves |
| `PatchObject.PatchState.Patch` | protocol/kuser.rs:185-277 | run alone, the retry loop yields the reference verdict and final word for every start word, with exactly 0 or 4096 waits |
| `PatchRuns.StepKeepsInv` | protocol/kuser.rs:208-276 | one atomic step of any call keeps: one owner per APPLYING word, sticky completion equal to the settled word |
| `PatchRuns.AtMostOneApply` | protocol/kuser.rs:249-276 | in every run two calls are never inside `apply` together |
| `PatchRuns.ReadySurvives` | protocol/kuser.rs:208-276 | after a success the word is APPLYING or READY for the latest success; before any success it is never READY |
| `PatchRuns.ImmediateSuccessIsTrue` | protocol/kuser.rs:211-214 | a call that returns success without applying does so only if its recipe is the latest success |
| `PatchRuns.WaitsAreBounded` | protocol/kuser.rs:215-248 | no call waits more than the limit in any run |
| `PatchRuns.FlightIsExclusive` | protocol/kuser.rs:249-276 | between winning the compare-exchange and storing the completion nobody else moves the word |
| `PatchRuns.ApplyLinearizes` | protocol/kuser.rs:208-276 | every concurrent apply has the verdict and final word of an undisturbed call from the word it replaced |
| `PatchRuns.ResumeRefusedForever` | protocol/kuser.rs:225-238 | once another recipe has settled, every later load by a Resume call ends in Conflict or a bounded wait |
| `PatchRuns.ConflictIff` | protocol/kuser.rs:215-248 | a load ends in Conflict iff the call has by then found an applying word 4096 times, or the word is one its recipe may not follow |
| `PatchRuns.ApplyLeaves` | protocol/kuser.rs:257-276 | a call that reached apply leaves READY on success, else the word it replaced, or FAILED when that was unapplied |
| `GuardedPatch.StepKeepsInv` | runtime/src/page_guard.rs:34-59 | guard, recovery, patch and fork steps keep one live holder per recorded owner and no orphaned word under a holder |
| `GuardedPatch.OneHolder` | runtime/src/page_guard.rs:34-59 | across all forks no process has two guard holders |
| `GuardedPatch.PatchNeverStartsApplying` | runtime/src/kuser.rs:165-175 | a guarded patch never starts on an APPLYING word, inherited or not |
| `GuardedPatch.GuardedPatchNeverWaits` | runtime/src/kuser.rs:165-175 | under the guard the wait branch is never taken and a compare-exchange never loses to another thread |
| `GuardedPatch.GuardedPatchOutcome` | runtime/src/kuser.rs:160-175 | a finished guarded patch has the undisturbed outcome of the word it started on and of the answer its own apply gave; apply ran iff that word allows it |
| `GuardedPatch.RefusalHasLiveHolder` | runtime/src/page_guard.rs:34-46 | the guard's first look refuses a caller exactly while a live thread of the same process holds it |
| `GuardedPatch.AcquireLosesOnlyToOthers` | runtime/src/page_guard.rs:34-51 | a caller that saw no live holder gets the guard unless another thread of the process took or dropped it meanwhile |
| `GuardedPatch.ReadyWasApplied` | protocol/kuser.rs:174-183 | across forks a READY word is owed to the latest successful apply of that process or, before the fork, of an ancestor |
| `GuardedPatch.SilentSuccessWasApplied` | runtime/src/kuser.rs:160-175 | a guarded patch answered Applied without applying only after a successful apply of its recipe in that line of processes |
| `ControlHistory.AppendConvention` | protocol/reflex/state.rs:304-347 | one more leaf leaves the convention fixed at the first registration unless it is a dual leaf |
| `ControlHistory.RejectedHandlerChangesNoRoute` | protocol/reflex/state.rs:311-320 | a re-registration whose patch fails changes no route for any syscall |
| `ControlHistory.PromotionKeepsHandler` | protocol/reflex/state.rs:292-297 | promotion makes the last accepted handler the system handler |
| `ControlHistory.ConventionOnlyPromoted` | protocol/reflex/state.rs:296-342 | after registration the convention changes only to dual dispatch, which is absorbing |
| `ControlHistory.UnsetIdsRouteOnlySentinel` | protocol/reflex/state.rs:179-187 | with no id registered, exactly the calls whose low 32 bits are the unset sentinel are routed |
| `ControlHistory.AttributesRoute` | protocol/reflex/state.rs:467-470 | the attributes id, when it is not the system id, goes to the handler of the latest 0x336934 leaf whatever R10 is |
| `ControlHistory.SystemRoute` | protocol/reflex/state.rs:462-466 | the system id goes to the handler of the latest accepted 0x336933 leaf, and only with R10 zero |
| `ControlHistory.DualRoutesOnlyIds` | protocol/reflex/state.rs:458-473 | dual dispatch routes nothing but those ids, in user range, never the bypass number |
| `ControlHistory.SelectorRoute` | protocol/reflex/state.rs:452-457 | a legacy first registration routes exactly the two selector numbers in user range to the latest accepted handler |
| `ControlHistory.ResumeRoute` | protocol/reflex/state.rs:451-451 | otherwise every number goes to the latest accepted handler with RAX as resume point |
| `ControlHistory.RequestIsRight` | protocol/reflex/state.rs:233-239 | patch requests told from the leaves: Dispatch after any dual leaf, before one Resume or the legacy recipe as the first registration fixed it |
| `ControlHistory.NativeChangesNoRoute` | protocol/reflex/state.rs:352-441 | a leaf passed to the native CPUID changes no route |
| `ControlHistory.ConsumedLeaves` | protocol/reflex/state.rs:352-441 | which leaves are consumed after which histories; a consumed handler leaf is the latest accepted one |
| `ReflexObject.ReflexState.ActivateDualDispatch` | protocol/reflex/state.rs:261-302 | alone, activation reaches dual dispatch, carries the resume target over and keeps the rest |
| `ReflexObject.ReflexState.RegisterResumeTarget` | protocol/reflex/state.rs:304-347 | alone, a handler is stored where the routing word says, and only if its patch succeeded |
| `ReflexObject.ReflexState.HandleCpuid` | protocol/reflex/state.rs:352-441 | after any leaf the words equal the recomputation from the longer history; the patch request is the one the leaves call for, identity and pid are those of the leaves |
| `ReflexObject.ReflexState.RouteSyscall` | protocol/reflex/state.rs:443-481 | the route equals the pure recomputation from the accepted leaves |
| `PatchSession.ResumeWordsUnderResumeConvention` | protocol/reflex/state.rs:233-239 | while the convention is resume-replay the patch word is unapplied or a Resume word |
| `PatchSession.NoRequestConflicts` | protocol/reflex/state.rs:399-405 | in every sequential control history no patch request is answered Conflict |
| `PatchSession.DualPatchesDispatch` | protocol/reflex/state.rs:233-239 | in a dual history a request that succeeds leaves the patch word at DISPATCH_READY |
| `ReflexRuns.StepKeepsInv` | protocol/reflex/state.rs:246-347 | one atomic step of a leaf or a route keeps single ownership and moves every word forward |
| `ReflexRuns.TransitionHasOneOwner` | protocol/reflex/state.rs:261-347 | the routing word is transitional exactly while one thread owns the transition |
| `ReflexRuns.WordsMoveForward` | protocol/reflex/state.rs:261-398 | every step follows a routing edge, never lowers the convention, never loses an observed identity |
| `ReflexRuns.WordsAgree` | protocol/reflex/state.rs:296-398 | dual routing implies the dual convention; a stored pid implies routing has left Unregistered |
| `ReflexRuns.RoutesWereRegistered` | protocol/reflex/state.rs:443-480 | every returned target is non-zero and registered for its way of routing (resume, selector, system id with R10 zero, attributes id), and number and RCX entitle the call to that way |
| `ReflexRuns.DualConventionStays` | protocol/reflex/state.rs:296-342 | once dual, the convention is dual in every later state of the run |
| `ReflexRuns.DualRoutesNeverResume` | protocol/reflex/state.rs:450-476 | a syscall that starts routing after dual dispatch is on never takes the resume path |
| `ReflexRuns.GivesUpOnlyAfterWaiting` | protocol/reflex/state.rs:246-347 | a registering leaf answers Native iff its patch is refused or it has found the routing word transitional 4096 times in a row |
| `ReflexAlone.LeafAlone` | protocol/reflex/state.rs:352-441 | the atomic steps of a leaf, taken alone, give the words and the answer of the sequential history |
| `ReflexAlone.RouteAlone` | protocol/reflex/state.rs:443-481 | the atomic reads of a route, taken alone, give the route recomputed from the leaves |
| `ReflexRace.PromotionCarriesWhatItRead` | protocol/reflex/state.rs:292-297 | in every interleaving the handler a promotion is about to publish is what the resume word held when that thread read it |
| `ReflexRace.ResumeWordIsLastAccepted` | protocol/reflex/state.rs:311-339 | in every state the resume word is the handler the resume path stored last |
| `ReflexRace.CarriedUnlessStoredAfterRead` | protocol/reflex/state.rs:292-297 | at publication the system handler is the handler accepted last iff that one was not stored after the promotion's read, or equals the one read |
| `ReflexRace.HandlerFrozen` | protocol/reflex/state.rs:304-339 | if nobody is pending with another handler at the read, the resume word never changes again in the run |
| `ReflexRace.PendingHandlerCanBeLost` | protocol/reflex/state.rs:292-320 | any run with another handler pending at the read can go on to accept it, last of all, and lose it |
| `ReflexRace.CarriesIffNobodyPending` | protocol/reflex/state.rs:261-347 | every continuation of the read publishes the handler accepted last iff nobody is pending with another one |
| `ReflexRace.AcceptedHandlerCanBeLost` | protocol/reflex/state.rs:311-320 | for any two handlers a run in which the second is stored after the promotion's read, is accepted last, and the first is published |
| `MarkerRuns.LocalStep` | runtime/src/syscall/reflex_markers.rs:85-239 | one step of a thread keeps its slots equal to its markers and touches only free slots, slots it holds and its own |
| `MarkerRuns.RetiredAll` | runtime/src/syscall/reflex_markers.rs:144-164 | the retire loop leaves exactly the thread's markers above the given stack |
| `MarkerRuns.FoundNowhere` | runtime/src/syscall/reflex_markers.rs:80-94 | an unsuccessful probe means the thread has no such marker, whatever moved meanwhile |
| `MarkerRuns.SlackStep` | runtime/src/syscall/reflex_markers.rs:104-138 | a slot is published or withdrawn only against the counter's book-keeping |
| `MarkerRuns.StepKeepsInv` | runtime/src/syscall/reflex_markers.rs:85-239 | every step of every thread keeps the table invariant and counter = published slots + threads mid-operation |
| `MarkerRuns.CounterCoversMarkers` | runtime/src/syscall/reflex_markers.rs:36-38 | in every run the counter is at least the number of published slots, and at zero no thread has a marker |
| `MarkerRuns.JobsAreIsolated` | runtime/src/syscall/reflex_markers.rs:99-239 | in every run a finished consume or cancel answered and left what it would alone; a finished arming call armed, or reported Full, and left exactly the markers above its stack plus its own |
| `MarkerRuns.FullMeansEverySlotTaken` | runtime/src/syscall/reflex_markers.rs:103-118 | an arming call that gives up has seen each of the 256 slots taken in some state of that very call |
| `MarkerRuns.ArmsWhileASlotIsFree` | runtime/src/syscall/reflex_markers.rs:99-119 | an arming call during which some slot stays free ends Armed |
| `MarkerRuns.JobsAreWaitFree` | runtime/src/syscall/reflex_markers.rs:85-239 | whatever other threads do, a dispatcher call ends within 4074 of its own steps, a consume or cancel within 869 |
| `MarkerHistory.MarksAreRecorded` | runtime/src/syscall/reflex_markers.rs:99-239 | a marker is live, unrouted or routed with given registers, if and only if the thread's history says so |
| `MarkerHistory.ConsumeAnswers` | runtime/src/syscall/reflex_markers.rs:170-228 | Route iff armed and left alone since; Replay(saved) iff then routed once with `saved` and left alone since; else nothing |
| `MarkerHistory.AnsweredOncePerArming` | runtime/src/syscall/reflex_markers.rs:183-227 | between two Routes, or between a Replay and any later answer, the marker was armed again |
| `MarkerHistory.StacksDecrease` | runtime/src/syscall/kuser_dispatch.rs:451-484 | of two live markers the later armed has the strictly smaller stack, and conversely |
| `MarkerHistory.LiveWasArmed` | runtime/src/syscall/kuser_dispatch.rs:451-484 | every live marker has its arming call, and no bridge call at or above its stack came since |
| `MarkerLog.RunsAreLives` | runtime/src/syscall/reflex_markers.rs:99-239 | in every interleaving each thread's jobs, answers and markers form a sequential life |
| `MarkerLog.TableHoldsMarks` | runtime/src/syscall/reflex_markers.rs:99-164 | between its jobs a thread's markers are exactly the slots tagged with it, one slot per stack, with their address, phase and saved registers |
| `MarkerLog.FullAnswersSawTaken` | runtime/src/syscall/reflex_markers.rs:103-118 | a life read off a run answers Full only where that call saw every slot taken |
| `RedirectSpec.NoMarkerLingers` | runtime/src/syscall/sigsys_router.rs:178-279 | a marker for the trapped call remains iff its first trap went to Reflex; no other marker changes |
| `RedirectSpec.TwoHops` | runtime/src/syscall/sigsys_router.rs:178-329 | the second trap restores xmm4, xmm5, r11 and eflags of the first, forwards to Wine, and a third finds nothing |
| `RedirectSpec.TrapIsJobs` | runtime/src/syscall/sigsys_router.rs:178-279 | a trap is one consume, followed by a cancel exactly when a Route answer does not go to Reflex |
| `RedirectSpec.ReturnsBehindItsCall` | runtime/src/syscall/sigsys_router.rs:314-335 | on a resume route a bridged call's return point is right behind the `syscall` its marker names; any other redirect hands over the trapped RCX |
| `RedirectSpec.OnlyEvidencedCallsRedirect` | runtime/src/syscall/sigsys_router.rs:129-279 | a call is redirected iff it is on its first bridged trap or from the registered process, and a route exists; others reach Wine unchanged |
| `RedirectObject.Trapped.Redirect` | runtime/src/syscall/sigsys_router.rs:124-335 | the handler's writes, in source order, amount to the decision; a redirected call enters at the target with eflags from r11, its service number in xmm4 and its return point in rax; a bypassed one only loses its mark |
| `TrapSessions.RoutedMarksAreAwaited` | runtime/src/syscall/sigsys_router.rs:178-279 | in every session a routed marker is live iff its call went to Reflex and has not come back |
| `TrapSessions.ReplayGivesBackItsCall` | runtime/src/syscall/sigsys_router.rs:188-204 | a trap is a replay iff a call with its stack and address is outstanding, and it gets that call's registers back |
| `TrapSessions.BridgeIsJob` | runtime/src/syscall/kuser_dispatch.rs:451-484 | a bridge call in a session does to the markers what the table lets its thread do |
| `FreeRing.StaysDuplicateFree` | runtime/src/hooks/pending_frees.rs:165-180 | no sequence of operations stores an address twice |
| `FreeRing.MarkAndConsume` | runtime/src/hooks/pending_frees.rs:165-180 | a marked address is held and evicts only the oldest slot; a consumed one is gone and no other is touched |
| `FreeRing.MarkSurvives` | runtime/src/hooks/pending_frees.rs:73-94 | an unconsumed mark survives the next 1023 new marks |
| `FreeRing.NextMarkEvicts` | runtime/src/hooks/pending_frees.rs:73-94 | the bound is exact: the 1024th new mark evicts it |
| `FreeIndex.RemoveKeepsLinked` | runtime/src/hooks/pending_frees.rs:60-71 | unlinking keeps chains acyclic, disjoint, back-linked and covering the occupied slots |
| `FreeIndex.InsertKeepsLinked` | runtime/src/hooks/pending_frees.rs:81-91 | pushing on a bucket keeps the same |
| `PendingFrees.History.Find` | runtime/src/hooks/pending_frees.rs:48-58 | the chain walk terminates and finds the address iff the ring holds it |
| `PendingFrees.History.Remove` | runtime/src/hooks/pending_frees.rs:60-71 | removal empties exactly that ring slot and keeps the index sound |
| `PendingFrees.History.SeenOrMark` | runtime/src/hooks/pending_frees.rs:73-94 | answers and changes as the plain ring does, evicting the oldest slot |
| `PendingFrees.History.Consume` | runtime/src/hooks/pending_frees.rs:96-102 | answers and changes as the plain ring does |
| `PendingFrees.MarkPointer` | runtime/src/hooks/pending_frees.rs:127-132 | a null pointer is never seen and never recorded; others as the ring |
| `PendingFrees.ConsumePointer` | runtime/src/hooks/pending_frees.rs:134-139 | a null pointer is never pending; others as the ring |
| `PendingFrees.Answers` | runtime/src/hooks/pending_frees.rs:152-206 | a new history answers every operation sequence as the reference ring does |
| `Trampolines.OneSlotPerSite` | runtime/src/syscall/int2e.rs:123-148 | in every run a site occupies at most one slot |
| `Trampolines.RunWritesOnce` | runtime/src/syscall/int2e.rs:136-166 | a slot's site and target never change once written |
| `Trampolines.LookupsAgree` | runtime/src/syscall/int2e.rs:123-167 | any two successful lookups of a site return one page, built for it and still mapped |
| `Trampolines.NoSpaceMeansFull` | runtime/src/syscall/int2e.rs:126-147 | giving up for space means all slots hold different sites, none its own |
| `Trampolines.FailedIff` | runtime/src/syscall/int2e.rs:123-158 | a lookup fails iff the address behind its site overflows or its own mapping fails |
| `Trampolines.PublishedIsFound` | runtime/src/syscall/int2e.rs:150-154 | a lookup of a site already published when it began ends with exactly that page |
| `Trampolines.NoPageLeaks` | runtime/src/syscall/int2e.rs:158-166 | every mapped page is published or still held by an unfinished lookup |
| `Trampolines.LookupsAdvance` | runtime/src/syscall/int2e.rs:126-147 | every step brings a lookup closer to its end except a claim another lookup beat |
| `StubSet.ProbeEnds` | runtime/src/syscall/kuser_dispatch.rs:125-147 | the half-load bound leaves an empty slot on every probe path |
| `StubSet.InsertKeepsWellformed` | runtime/src/syscall/kuser_dispatch.rs:132-147 | inserting at the first empty probe slot keeps every stored address reachable and unique |
| `StubSet.StubTable.Remember` | runtime/src/syscall/kuser_dispatch.rs:132-147 | adds exactly the address, iff it is non-zero, new and capacity remains |
| `StubSet.StubTable.MatchesIatStub` | runtime/src/syscall/kuser_dispatch.rs:335-357 | true iff the return address minus 0x1f is a remembered stub |
| `SignalSlot.CopiesAreLive` | runtime/src/hooks.rs:50-60 | no reader copies a released snapshot, and it gets the action that was published |
| `SignalSlot.PeeksAreLive` | runtime/src/hooks.rs:563-574 | the installer's own read of the replaced snapshot is of live memory |
| `SignalSlot.ReleasesAreSafe` | runtime/src/hooks.rs:62-70 | a snapshot is released only while allocated, detached and unread, hence at most once |
| `SignalSlot.CurrentIsLive` | runtime/src/hooks.rs:464-580 | what the slot points to is never released memory |
| `SignalSlot.ResetClearsDelivered` | runtime/src/hooks.rs:464-476 | a reset that takes an action down takes the snapshot it delivered iff that snapshot was not released since its load |
| `SignalSlot.ResetCanClearAnother` | runtime/src/hooks.rs:464-476 | a reachable state in which a reset takes down an action newer than the one delivered, at a reused address |
| `SignalSlot.InstallTakesEffect` | runtime/src/hooks.rs:558-581 | after an accepted install the slot holds the snapshot with the requested action, or null after a reset took it down |
| `SignalSlot.RollBackRestores` | runtime/src/hooks.rs:575-578 | after a refused install the slot holds the replaced snapshot with its old action |
| `CallerCache.HitsAreWholeRecords` | runtime/src/cpuid.rs:94-133 | a hit is one whole inserted record whose range contains the address, with 32-bit version wrap modelled |
| `CallerCache.QuietLookupsAreExact` | runtime/src/cpuid.rs:94-111 | a lookup with no writer step inside finds the record of the first closed slot containing the address, and misses only if there is none |
| `CallerCache.InsertsPublish` | runtime/src/cpuid.rs:125-131 | when an insert closes, its slot holds exactly its record under an even version |
| `CallerCache.ReplacedRoundRobin` | runtime/src/cpuid.rs:123-124 | the k-th insert goes to slot k modulo 64 |
| `EventRing.DumpsAreFaithful` | runtime/src/syscall/diagnostics.rs:66-114 | a dump delivers for each ticket exactly the event recorded under it, in increasing order |
| `EventRing.QuietDumpsAreComplete` | runtime/src/syscall/diagnostics.rs:97-114 | a dump with no writer step inside delivers every ticket of its range whose slot is published under it, with its sample |
| `EventRing.OneFillerPerSlot` | runtime/src/syscall/diagnostics.rs:70-94 | two writers never fill one slot at once |
| `EventRing.DropsAreJustified` | runtime/src/syscall/diagnostics.rs:70-77 | a sample is dropped only while another writer fills its slot or after a newer ticket took it |
| `EventRing.RecordsPublish` | runtime/src/syscall/diagnostics.rs:91-94 | a recorded sample is published whole under its own ticket |
| `ThunkTails.NoThunkInside` | runtime/src/syscall/pe_stub_layout.rs:99-103 | no thunk starts inside a thunk with the Windows tail, so skipping its length misses nothing |
| `ThunkTails.AllWindowsPendsNothing` | runtime/src/syscall/pe_stub_layout.rs:129-143 | a buffer whose thunks all have the Windows tail counts zero, so a second rewrite does nothing |
| `ThunkTails.CountPending` | runtime/src/syscall/pe_stub_layout.rs:129-143 | the loop counts the thunks of the scan whose tail is not the Windows tail |
| `ThunkTails.ScanCovers` | runtime/src/syscall/pe_stub_layout.rs:129-143 | the scan misses only thunks that start inside one it found |
| `ThunkTails.PendingIsTheirNumber` | runtime/src/syscall/pe_stub_layout.rs:129-143 | the pending count is the number of scanned thunks without the Windows tail |
| `ThunkTails.NothingPendingIff` | runtime/src/syscall/pe_stub_layout.rs:110-143 | nothing is pending iff every thunk anywhere in the buffer has the Windows tail |
| `ThunkTails.RewriteTails` | runtime/src/syscall/pe_stub_layout.rs:110-126 | every offset matching the signature ends with the Windows tail, only scanned tails changed, result = pending count |
| `ImportScan.ReadU64s` | runtime/src/procmem.rs:84-100 | bulk read and fallback both return exactly the leading readable words |
| `ImportScan.SaturationReadsNothing` | runtime/src/syscall/kuser_dispatch.rs:274-287 | saturated chunk addresses read no word that exact addresses would not |
| `ImportScan.ReadU64Byte` | runtime/src/procmem.rs:76-79 | a word read from memory has exactly the bytes at its address, lowest first |
| `ImportScan.DestinationIsJumpTarget` | runtime/src/syscall/mem.rs:11-21 | a slot has a destination iff it holds the indirect jump, byte by byte, and it is the word jumped through |
| `ImportScan.ScanLearnsOnlyReached` | runtime/src/syscall/kuser_dispatch.rs:288-301 | every stub learned is that of an entry before the first zero or unreadable word of either table |
| `ImportScan.ScanLearnsAllReached` | runtime/src/syscall/kuser_dispatch.rs:288-301 | short of the capacity every such entry's stub is learned |
| `ImportScan.ScanThunks` | runtime/src/syscall/kuser_dispatch.rs:265-303 | the chunked scan remembers exactly the stubs of the word-by-word scan and counts the new ones |
| `Registry.WindowDecides` | runtime/src/registry.rs:57-75 | searching only the last bytes of the content finds a marker exactly when the content has one, which then ends at the new byte |
| `Registry.FeedByte` | runtime/src/registry.rs:57-75 | a reported match is a match in the content read so far; otherwise the scan's knowledge that there is none yet extends to the new byte |
| `Registry.AlreadyPresent` | runtime/src/registry.rs:45-78 | for every content and every split into reads, true iff the profile marker is followed without overlap by the GUID marker |

## Where code and comments differ

* The comment on `retire_markers` (runtime/src/syscall/reflex_markers.rs:141-143) says it is called once per
  SIGSYS. The code calls it only from the dispatcher bridge (runtime/src/syscall/kuser_dispatch.rs:453-456);
  the model follows the code, so a trap never retires deeper markers.
* The public `routing()` shows a promotion in progress as Unregistered. The routing theorems are about the
  internal word.
* Unset syscall ids are stored as the 32-bit maximum, so a call with that number is routed before any id is
  registered; `UnsetIdsRouteOnlySentinel` says exactly when.

## Left out

- Weak memory orderings: steps are sequentially consistent.
- CallerCache.HitsAreWholeRecords: assumes fewer than 2^31 completed inserts into one slot during one read, because after that many (2^32 version increments) the 32-bit version word repeats; the round-robin position is one step under the insert lock.
- EventRing.DumpsAreFaithful: tickets stay below the writing bit (2^63 events).
- MarkerRuns.JobsAreIsolated: stack pointers differ from the reservation value u64::MAX; a slot's six saved register words are one cell, since only the marker's own thread touches them; a thread is not interrupted by its own signal handler inside a marker operation; the active counter does not reach 2^32.
- GuardedPatch.OneHolder: process ids are not reused, and the thread that forks is outside the guard.
- PatchRuns.ReadySurvives: speaks of the state word only; a failing `apply` may already have written bytes of the shared page.
- SignalSlot.ReleasesAreSafe: without forks; the child's reset of the slots is not modelled.
- StubSet.StubTable.Remember: inserts are serialized by the scan lock as in the source; lock-free readers during an insert are not modelled.
- PendingFrees.History.SeenOrMark: the spin lock around the history and its reset after fork are not modelled.
- RedirectObject.Trapped.Redirect: local completion of the window-list probe, the registered-process answer, the selected route and the instruction bytes at RIP are parameters; diagnostics are omitted.
- ReflexRuns.RoutesWereRegistered: does not say which registered handler a route uses while leaves race; for promotion `ReflexRace.CarriedUnlessStoredAfterRead` says which.
- Routing: the load of the routing word that only selects a log line in the 0x336933 leaf.
- Signal delivery, naked assembly, memory mapping and protection, `/proc` reading, environment set-up, logging.
- CPUID reply constants, recipe byte tables, trampoline byte layout, brand strings and game quirks: fixed data.
- PE header discovery by probing memory, the search for a raw `syscall` instruction, window-list and unixlib repair: their result depends on foreign memory contents and is a parameter here.
- `protocol/environment.rs`, `protocol/gamescope.rs`, `protocol/faketime.rs`, `protocol/debug.rs`, `protocol/cpuid.rs`, `runtime/src/maps.rs`: text and leaf encoders with no state across calls, outside the protocols modelled here.
- Liveness that depends on scheduler fairness; waits are proved bounded, sequential loops terminating.
