/**
 Every interleaving of control leaves and syscall routing over the shared words of the Reflex state,
 one atomic access per step.  The `choice` of a step stands for what the thread cannot control:
 a weak compare-exchange failing spuriously, the CPU presentation in force, a patch succeeding.
 */
module ReflexRuns {
  import opened Common
  import opened SyscallRoute
  import opened ControlHistory
  import opened ReflexObject

  const TRANSITION_WAIT_LIMIT: nat := 4096

  datatype Shared = Shared(
    routing: Routing, identity: Identity, targetPid: nat, convention: Convention, resumeTarget: nat,
    systemTarget: nat, systemId: nat, attributesTarget: nat, attributesId: nat)

  const Fresh := Shared(Unregistered, Unobserved, 0, ResumeReplay, 0, 0, U32_MAX, 0, U32_MAX)

  datatype Job =
    | Control(leaf: nat, argument: nat)
    | Syscall(number: nat, r10: int, rcx: nat)

  datatype Pc =
    | ArmStore | ArmLoad
    | IdentityCas | RegLoad | RegWait(regLoads: nat) | RegCas
    | RegStoreTarget | RegStoreConvention | RegStoreRouting
    | RegStoreSystem | RegPatch | RegStoreResume
    | PidLoad | PidStore | PidPatch
    | ActLoad | ActWait(actLoads: nat) | ActCas(from: Routing)
    | ActReadResume | ActReadSystem(read: nat) | ActStoreSystem(carried: nat) | ActStoreConvention | ActStoreRouting
    | StorePayload
    | RouteRouting | RouteConvention | RouteResume(rax: bool)
    | RouteSystemId | RouteSystemTarget | RouteAttributesId | RouteAttributesTarget
    | Done(action: Action)
    | Routed(route: Option<Route>)

  datatype Thread = Thread(job: Job, pc: Pc)

  datatype State = State(shared: Shared, threads: map<nat, Thread>)

  datatype Event = Begin(t: nat, job: Job) | Step(t: nat, choice: bool)

  function StartPc(job: Job): Pc {
    match job
    case Syscall(_, _, _) => RouteRouting
    case Control(leaf, _) =>
      if leaf == ARM_TARGET_CR3 then ArmStore
      else if leaf == REGISTER_RESUME_HANDLER then IdentityCas
      else if leaf == REGISTER_TARGET_PID then PidLoad
      else if IsDualLeaf(leaf) then ActLoad
      else Done(if leaf == SET_TIME then Consumed else Native)
  }

  predicate Transitional(r: Routing) {
    r.RegisteringResumeTarget? || r.RegisteringDualDispatch? || r.PromotingDualDispatch?
  }

  /** Whether the job is the kind of call that can be at this program counter. */
  predicate Fits(th: Thread) {
    match th.pc
    case IdentityCas | RegLoad | RegWait(_) | RegCas | RegStoreTarget | RegStoreConvention | RegStoreRouting =>
      th.job.Control? && th.job.leaf == REGISTER_RESUME_HANDLER
    case RegStoreSystem | RegPatch | RegStoreResume => th.job.Control? && th.job.leaf == REGISTER_RESUME_HANDLER
    case PidLoad | PidStore | PidPatch => th.job.Control? && th.job.leaf == REGISTER_TARGET_PID
    case ActLoad | ActWait(_) | ActCas(_) | ActReadResume | ActReadSystem(_) | ActStoreSystem(_) =>
      th.job.Control? && IsDualLeaf(th.job.leaf)
    case ActStoreConvention | ActStoreRouting | StorePayload => th.job.Control? && IsDualLeaf(th.job.leaf)
    case RouteRouting | RouteConvention | RouteResume(_) | RouteSystemId | RouteSystemTarget => th.job.Syscall?
    case RouteAttributesId | RouteAttributesTarget | Routed(_) => th.job.Syscall?
    case ArmStore | ArmLoad => th.job.Control? && th.job.leaf == ARM_TARGET_CR3
    case Done(_) => th.job.Control?
  }

  predicate Finished(pc: Pc) { pc.Done? || pc.Routed? }

  /** One atomic step of a registering or identity leaf. */
  function RegisterStep(sh: Shared, th: Thread, choice: bool): (Shared, Pc)
    requires Fits(th) && th.job.Control? && !Finished(th.pc)
  {
    match th.pc
    case ArmStore => (sh.(identity := Process), ArmLoad)
    case ArmLoad => (sh, Done(if sh.routing == ResumeTarget then Native else Consumed))
    case IdentityCas => (if sh.identity == Unobserved then sh.(identity := DebugRegisterThread) else sh, RegLoad)
    case RegLoad =>
      (sh, match sh.routing
           case DualDispatching => RegStoreSystem
           case ResumeTarget => RegPatch
           case Unregistered => RegCas
           case _ => RegWait(0))
    case RegWait(n) =>
      (sh, if n == TRANSITION_WAIT_LIMIT then Done(Native)
           else if Transitional(sh.routing) then RegWait(n + 1) else RegLoad)
    case RegCas =>
      if choice || sh.routing != Unregistered then (sh, RegLoad)
      else (sh.(routing := RegisteringResumeTarget), RegStoreTarget)
    case RegStoreTarget => (sh.(resumeTarget := th.job.argument), RegStoreConvention)
    case RegStoreConvention => (if choice then sh.(convention := SelectorDispatch) else sh, RegStoreRouting)
    case RegStoreRouting => (sh.(routing := ResumeTarget), Done(Consumed))
    case RegStoreSystem => (sh.(systemTarget := th.job.argument), Done(Consumed))
    case RegPatch => (sh, if choice then RegStoreResume else Done(Native))
    case RegStoreResume => (sh.(resumeTarget := th.job.argument), Done(Consumed))
    case PidLoad => (sh, if sh.routing == ResumeTarget || sh.routing == DualDispatching then PidStore else Done(Native))
    case PidStore => (sh.(targetPid := th.job.argument), PidPatch)
    case PidPatch => (sh, Done(if choice then Consumed else Native))
    case _ => ActivateStep(sh, th, choice)
  }

  /** One atomic step of a leaf that needs dual dispatch. */
  function ActivateStep(sh: Shared, th: Thread, choice: bool): (Shared, Pc)
    requires Fits(th) && th.job.Control? && IsDualLeaf(th.job.leaf) && !Finished(th.pc)
  {
    match th.pc
    case ActLoad =>
      (sh, if sh.routing == DualDispatching then StorePayload
           else if Transitional(sh.routing) then ActWait(0) else ActCas(sh.routing))
    case ActWait(n) =>
      (sh, if n == TRANSITION_WAIT_LIMIT then Done(Native)
           else if Transitional(sh.routing) then ActWait(n + 1) else ActLoad)
    case ActCas(from) =>
      if choice || sh.routing != from then (sh, ActLoad)
      else (sh.(routing := if from == Unregistered then RegisteringDualDispatch else PromotingDualDispatch),
            ActReadResume)
    case ActReadResume => (sh, ActReadSystem(sh.resumeTarget))
    case ActReadSystem(target) => (sh, if sh.systemTarget == 0 then ActStoreSystem(target) else ActStoreConvention)
    case ActStoreSystem(target) => (sh.(systemTarget := target), ActStoreConvention)
    case ActStoreConvention => (sh.(convention := DualDispatch), ActStoreRouting)
    case ActStoreRouting => (sh.(routing := DualDispatching), StorePayload)
    case StorePayload =>
      (if th.job.leaf == REGISTER_SYSTEM_SYSCALL_ID then sh.(systemId := Low32(th.job.argument))
       else if th.job.leaf == REGISTER_ATTRIBUTES_HANDLER then sh.(attributesTarget := th.job.argument)
       else sh.(attributesId := Low32(th.job.argument)), Done(Consumed))
  }

  /** One atomic read of `route_syscall`. */
  function RouteStep(sh: Shared, th: Thread): Pc
    requires Fits(th) && th.job.Syscall? && !Finished(th.pc)
  {
    var Syscall(number, r10, rcx) := th.job;
    match th.pc
    case RouteRouting =>
      if sh.routing == Unregistered || sh.routing == RegisteringDualDispatch then Routed(None) else RouteConvention
    case RouteConvention =>
      (match sh.convention
       case ResumeReplay => RouteResume(true)
       case SelectorDispatch =>
         if (number != SELECTOR_A && number != SELECTOR_B) || rcx > USER_RCX_MAX then Routed(None)
         else RouteResume(false)
       case DualDispatch => if number == DISPATCH_BYPASS_SYSCALL then Routed(None) else RouteSystemId)
    case RouteResume(rax) => Routed(RouteTo(sh.resumeTarget, rax))
    case RouteSystemId =>
      if Low32(number) != sh.systemId then RouteAttributesId
      else if r10 != 0 || rcx > USER_RCX_MAX then Routed(None) else RouteSystemTarget
    case RouteSystemTarget => Routed(RouteTo(sh.systemTarget, false))
    case RouteAttributesId =>
      if Low32(number) == sh.attributesId && rcx <= USER_RCX_MAX then RouteAttributesTarget else Routed(None)
    case RouteAttributesTarget => Routed(RouteTo(sh.attributesTarget, false))
  }

  function StepOf(sh: Shared, th: Thread, choice: bool): (Shared, Thread)
    requires Fits(th) && !Finished(th.pc)
  {
    match th.job
    case Syscall(_, _, _) => (sh, th.(pc := RouteStep(sh, th)))
    case Control(_, _) => var (sh', pc') := RegisterStep(sh, th, choice); (sh', th.(pc := pc'))
  }

  predicate Enabled(s: State, e: Event) {
    match e
    case Begin(t, _) => t in s.threads ==> Finished(s.threads[t].pc)
    case Step(t, _) => t in s.threads && Fits(s.threads[t]) && !Finished(s.threads[t].pc)
  }

  function After(s: State, e: Event): State
    requires Enabled(s, e)
  {
    match e
    case Begin(t, job) => s.(threads := s.threads[t := Thread(job, StartPc(job))])
    case Step(t, choice) =>
      var (sh', th') := StepOf(s.shared, s.threads[t], choice);
      State(sh', s.threads[t := th'])
  }

  ghost predicate IsRun(states: seq<State>, events: seq<Event>) {
    && |states| == |events| + 1
    && states[0] == State(Fresh, map[])
    && forall i :: 0 <= i < |events| ==> Enabled(states[i], events[i]) && states[i + 1] == After(states[i], events[i])
  }

  predicate IsLeaf(e: Event, leaf: nat) { e.Begin? && e.job.Control? && e.job.leaf == leaf }

  /** The arguments of the leaves of one kind received in the first `n` events. */
  ghost function Arguments(events: seq<Event>, leaf: nat, n: nat): set<nat>
    requires n <= |events|
  {
    set i | 0 <= i < n && IsLeaf(events[i], leaf) :: events[i].job.argument
  }

  /** What the leaves received so far have registered, the ids truncated to 32 bits. */
  datatype Seen = Seen(handlers: set<nat>, attributes: set<nat>, pids: set<nat>, systemIds: set<nat>,
                       attributesIds: set<nat>)

  ghost function Ids(events: seq<Event>, leaf: nat, n: nat): set<nat>
    requires n <= |events|
  {
    set i | 0 <= i < n && IsLeaf(events[i], leaf) :: Low32(events[i].job.argument)
  }

  ghost function SeenBy(events: seq<Event>, n: nat): Seen
    requires n <= |events|
  {
    Seen(Arguments(events, REGISTER_RESUME_HANDLER, n), Arguments(events, REGISTER_ATTRIBUTES_HANDLER, n),
         Arguments(events, REGISTER_TARGET_PID, n), Ids(events, REGISTER_SYSTEM_SYSCALL_ID, n),
         Ids(events, REGISTER_ATTRIBUTES_SYSCALL_ID, n))
  }

  predicate Grown(seen: Seen, seen': Seen) {
    && seen.handlers <= seen'.handlers && seen.attributes <= seen'.attributes && seen.pids <= seen'.pids
    && seen.systemIds <= seen'.systemIds && seen.attributesIds <= seen'.attributesIds
  }

  predicate Includes(seen: Seen, job: Job) {
    job.Control? ==>
      && (job.leaf == REGISTER_RESUME_HANDLER ==> job.argument in seen.handlers)
      && (job.leaf == REGISTER_ATTRIBUTES_HANDLER ==> job.argument in seen.attributes)
      && (job.leaf == REGISTER_TARGET_PID ==> job.argument in seen.pids)
      && (job.leaf == REGISTER_SYSTEM_SYSCALL_ID ==> Low32(job.argument) in seen.systemIds)
      && (job.leaf == REGISTER_ATTRIBUTES_SYSCALL_ID ==> Low32(job.argument) in seen.attributesIds)
  }

  /** Program counters of the thread that moved the routing word to a transitional value. */
  predicate Owner(pc: Pc) {
    || pc.RegStoreTarget? || pc.RegStoreConvention? || pc.RegStoreRouting?
    || pc.ActReadResume? || pc.ActReadSystem? || pc.ActStoreSystem? || pc.ActStoreConvention? || pc.ActStoreRouting?
  }

  predicate Edge(a: Routing, b: Routing) {
    match a
    case Unregistered => b.Unregistered? || b.RegisteringResumeTarget? || b.RegisteringDualDispatch?
    case RegisteringResumeTarget => b.RegisteringResumeTarget? || b.ResumeTarget?
    case RegisteringDualDispatch => b.RegisteringDualDispatch? || b.DualDispatching?
    case ResumeTarget => b.ResumeTarget? || b.PromotingDualDispatch?
    case PromotingDualDispatch => b.PromotingDualDispatch? || b.DualDispatching?
    case DualDispatching => b.DualDispatching?
  }

  function Rank(c: Convention): nat { match c case ResumeReplay => 0 case SelectorDispatch => 1 case DualDispatch => 2 }

  /** What every step guarantees about the shared words. */
  predicate Forward(sh: Shared, sh': Shared) {
    && Edge(sh.routing, sh'.routing)
    && Rank(sh.convention) <= Rank(sh'.convention)
    && (sh.identity == Process ==> sh'.identity == Process)
    && (sh.identity == DebugRegisterThread ==> sh'.identity != Unobserved)
  }

  /** A word is still unset or holds something registered. */
  predicate From(word: nat, unset: nat, registered: set<nat>) { word == unset || word in registered }

  predicate Sourced(sh: Shared, seen: Seen) {
    && From(sh.resumeTarget, 0, seen.handlers) && From(sh.systemTarget, 0, seen.handlers)
    && From(sh.attributesTarget, 0, seen.attributes) && From(sh.targetPid, 0, seen.pids)
    && From(sh.systemId, U32_MAX, seen.systemIds) && From(sh.attributesId, U32_MAX, seen.attributesIds)
  }

  predicate Consistent(sh: Shared) {
    && (sh.targetPid != 0 ==> sh.routing != Unregistered)
    && (sh.routing == DualDispatching ==> sh.convention == DualDispatch)
    && (sh.routing == Unregistered ==> sh.convention == ResumeReplay)
    && (sh.routing == ResumeTarget || sh.routing == RegisteringResumeTarget ==> sh.convention != DualDispatch)
  }

  predicate SharedInv(sh: Shared, seen: Seen) { Sourced(sh, seen) && Consistent(sh) }

  predicate InUserRange(rcx: nat) { rcx <= 0x7fff_ffff_ffff }

  /** The call's number is an id some leaf registered, or the unset sentinel. */
  predicate Registered32(number: nat, ids: set<nat>) {
    number != 0x7fff_ffff_ffff && (number % 0x1_0000_0000 in ids || number % 0x1_0000_0000 == 0xffff_ffff)
  }

  /** How a returned route comes about: down the resume path, by a selector number, by a system id with
      R10 zero, or by an attributes id, and each way only to handlers registered for it. */
  predicate Explained(job: Job, route: Route, seen: Seen)
    requires job.Syscall?
  {
    if route.raxIsResume then route.target in seen.handlers
    else
      && InUserRange(job.rcx)
      && (|| ((job.number == 0x1337_1337 || job.number == 0x1337_1338) && route.target in seen.handlers)
          || (Registered32(job.number, seen.systemIds) && job.r10 == 0 && route.target in seen.handlers)
          || (Registered32(job.number, seen.attributesIds) && route.target in seen.attributes))
  }

  predicate RouteInv(job: Job, route: Option<Route>, seen: Seen) {
    job.Syscall? && route.Some? ==> route.value.target != 0 && Explained(job, route.value, seen)
  }

  predicate ThreadInv(sh: Shared, th: Thread, seen: Seen) {
    && Fits(th)
    && Includes(seen, th.job)
    && match th.pc
       case RegStoreTarget | RegStoreConvention =>
         sh.routing == RegisteringResumeTarget && sh.convention == ResumeReplay
       case RegStoreRouting => sh.routing == RegisteringResumeTarget
       case ActCas(from) => from == Unregistered || from == ResumeTarget
       case ActReadResume | ActStoreConvention => Activating(sh)
       case ActReadSystem(target) => Activating(sh) && From(target, 0, seen.handlers)
       case ActStoreSystem(target) => Activating(sh) && From(target, 0, seen.handlers)
       case ActStoreRouting => Activating(sh) && sh.convention == DualDispatch
       case RegStoreSystem | StorePayload => sh.routing == DualDispatching
       case RegPatch | RegStoreResume | PidStore | PidPatch => sh.routing != Unregistered
       case RouteResume(rax) =>
         rax || (InUserRange(th.job.rcx) && (th.job.number == SELECTOR_A || th.job.number == SELECTOR_B))
       case RouteSystemId | RouteAttributesId => th.job.number != DISPATCH_BYPASS_SYSCALL
       case RouteSystemTarget =>
         InUserRange(th.job.rcx) && th.job.r10 == 0 && Registered32(th.job.number, seen.systemIds)
       case RouteAttributesTarget => InUserRange(th.job.rcx) && Registered32(th.job.number, seen.attributesIds)
       case Routed(route) => RouteInv(th.job, route, seen)
       case _ => true
  }

  predicate Activating(sh: Shared) { sh.routing == RegisteringDualDispatch || sh.routing == PromotingDualDispatch }

  predicate ThreadsInv(sh: Shared, threads: map<nat, Thread>, seen: Seen) {
    forall t :: t in threads ==> ThreadInv(sh, threads[t], seen)
  }

  /** The routing word is transitional exactly while one thread owns the transition. */
  predicate OwnersInv(sh: Shared, threads: map<nat, Thread>) {
    && (forall t :: t in threads && Owner(threads[t].pc) ==> Transitional(sh.routing))
    && (forall t, u :: t in threads && u in threads && Owner(threads[t].pc) && Owner(threads[u].pc) ==> t == u)
    && (Transitional(sh.routing) ==> exists t :: t in threads && Owner(threads[t].pc))
  }

  predicate Inv(s: State, seen: Seen) {
    && SharedInv(s.shared, seen)
    && ThreadsInv(s.shared, s.threads, seen)
    && OwnersInv(s.shared, s.threads)
  }

  /** What one thread's step does to the shared words and to its own facts. */
  predicate StepOk(sh: Shared, th: Thread, sh': Shared, pc': Pc, seen: Seen) {
    && SharedInv(sh', seen) && ThreadInv(sh', th.(pc := pc'), seen)
    && Forward(sh, sh') && RespectsOwner(sh, th.pc, sh', pc')
  }

  lemma ActivateOk(sh: Shared, th: Thread, choice: bool, seen: Seen)
    requires SharedInv(sh, seen) && ThreadInv(sh, th, seen) && !Finished(th.pc)
    requires th.job.Control? && IsDualLeaf(th.job.leaf)
    ensures var (sh', pc') := ActivateStep(sh, th, choice); StepOk(sh, th, sh', pc', seen)
  {
    hide RouteInv, Low32, InUserRange, Registered32, StepOk;
    var (sh', pc') := ActivateStep(sh, th, choice);
    ActivateShared(sh, th, choice, seen);
    ActivateOrder(sh, th, choice, seen);
    ActivateThread(sh, th, choice, seen);
    IsStepOk(sh, th, sh', pc', seen);
  }

  lemma ActivateShared(sh: Shared, th: Thread, choice: bool, seen: Seen)
    requires SharedInv(sh, seen) && ThreadInv(sh, th, seen) && !Finished(th.pc)
    requires th.job.Control? && IsDualLeaf(th.job.leaf)
    ensures Sourced(ActivateStep(sh, th, choice).0, seen)
  {
    hide RouteInv, Low32, InUserRange, Registered32, Consistent;
  }

  lemma ActivateOrder(sh: Shared, th: Thread, choice: bool, seen: Seen)
    requires SharedInv(sh, seen) && ThreadInv(sh, th, seen) && !Finished(th.pc)
    requires th.job.Control? && IsDualLeaf(th.job.leaf)
    ensures var (sh', pc') := ActivateStep(sh, th, choice);
            Consistent(sh') && Forward(sh, sh') && RespectsOwner(sh, th.pc, sh', pc')
  {
    hide RouteInv, Low32, InUserRange, Registered32, Sourced, Includes;
  }

  lemma ActivateThread(sh: Shared, th: Thread, choice: bool, seen: Seen)
    requires SharedInv(sh, seen) && ThreadInv(sh, th, seen) && !Finished(th.pc)
    requires th.job.Control? && IsDualLeaf(th.job.leaf)
    ensures var (sh', pc') := ActivateStep(sh, th, choice); ThreadInv(sh', th.(pc := pc'), seen)
  {
    hide RouteInv, Low32, InUserRange, Registered32, Includes;
  }

  lemma RegisterOk(sh: Shared, th: Thread, choice: bool, seen: Seen)
    requires SharedInv(sh, seen) && ThreadInv(sh, th, seen) && !Finished(th.pc)
    requires th.job.Control? && !IsDualLeaf(th.job.leaf)
    ensures var (sh', pc') := RegisterStep(sh, th, choice); StepOk(sh, th, sh', pc', seen)
  {
    hide ActivateStep, RouteInv, Activating, InUserRange, Registered32, Low32;
    if th.job.leaf == REGISTER_RESUME_HANDLER {
      HandlerOk(sh, th, choice, seen);
    }
  }

  lemma HandlerOk(sh: Shared, th: Thread, choice: bool, seen: Seen)
    requires SharedInv(sh, seen) && ThreadInv(sh, th, seen) && !Finished(th.pc)
    requires th.job.Control? && th.job.leaf == REGISTER_RESUME_HANDLER
    ensures var (sh', pc') := RegisterStep(sh, th, choice); StepOk(sh, th, sh', pc', seen)
  {
    hide ActivateStep, RouteInv, Activating, InUserRange, Registered32, Low32, StepOk;
    var (sh', pc') := RegisterStep(sh, th, choice);
    HandlerShared(sh, th, choice, seen);
    HandlerOrder(sh, th, choice, seen);
    HandlerThread(sh, th, choice, seen);
    IsStepOk(sh, th, sh', pc', seen);
  }

  lemma IsStepOk(sh: Shared, th: Thread, sh': Shared, pc': Pc, seen: Seen)
    requires SharedInv(sh', seen) && ThreadInv(sh', th.(pc := pc'), seen)
    requires Forward(sh, sh') && RespectsOwner(sh, th.pc, sh', pc')
    ensures StepOk(sh, th, sh', pc', seen)
  {
  }

  lemma HandlerShared(sh: Shared, th: Thread, choice: bool, seen: Seen)
    requires SharedInv(sh, seen) && ThreadInv(sh, th, seen) && !Finished(th.pc)
    requires th.job.Control? && th.job.leaf == REGISTER_RESUME_HANDLER
    ensures Sourced(RegisterStep(sh, th, choice).0, seen)
  {
    hide RouteInv, Low32, InUserRange, Registered32, ActivateStep, Activating, Consistent;
  }

  lemma HandlerOrder(sh: Shared, th: Thread, choice: bool, seen: Seen)
    requires SharedInv(sh, seen) && ThreadInv(sh, th, seen) && !Finished(th.pc)
    requires th.job.Control? && th.job.leaf == REGISTER_RESUME_HANDLER
    ensures var (sh', pc') := RegisterStep(sh, th, choice);
            Consistent(sh') && Forward(sh, sh') && RespectsOwner(sh, th.pc, sh', pc')
  {
    hide RouteInv, Low32, InUserRange, Registered32, ActivateStep, Activating, Sourced, Includes;
  }

  lemma HandlerThread(sh: Shared, th: Thread, choice: bool, seen: Seen)
    requires SharedInv(sh, seen) && ThreadInv(sh, th, seen) && !Finished(th.pc)
    requires th.job.Control? && th.job.leaf == REGISTER_RESUME_HANDLER
    ensures var (sh', pc') := RegisterStep(sh, th, choice); ThreadInv(sh', th.(pc := pc'), seen)
  {
    hide ActivateStep, RouteInv, Activating, InUserRange, Registered32, Low32;
  }

  lemma RouteOk(sh: Shared, th: Thread, seen: Seen)
    requires SharedInv(sh, seen) && ThreadInv(sh, th, seen) && !Finished(th.pc)
    requires th.job.Syscall?
    ensures StepOk(sh, th, sh, RouteStep(sh, th), seen)
  {
  }

  lemma ThreadStep(sh: Shared, th: Thread, choice: bool, seen: Seen)
    requires SharedInv(sh, seen) && ThreadInv(sh, th, seen) && !Finished(th.pc)
    ensures var (sh', th') := StepOf(sh, th, choice);
            th' == th.(pc := th'.pc) && StepOk(sh, th, sh', th'.pc, seen)
  {
    hide StepOk, SharedInv, ActivateStep, RouteStep;
    if th.job.Syscall? {
      RouteOk(sh, th, seen);
    } else if IsDualLeaf(th.job.leaf) {
      ActivateOk(sh, th, choice, seen);
    } else {
      RegisterOk(sh, th, choice, seen);
    }
  }

  /** Another thread's facts survive a step that respects ownership. */
  lemma OthersStable(sh: Shared, sh': Shared, other: Thread, seen: Seen)
    requires ThreadInv(sh, other, seen) && Forward(sh, sh')
    requires Owner(other.pc) ==> sh'.routing == sh.routing && sh'.convention == sh.convention
    ensures ThreadInv(sh', other, seen)
  {
  }

  predicate RespectsOwner(sh: Shared, pc: Pc, sh': Shared, pc': Pc) {
    && (!Owner(pc) && Transitional(sh.routing) ==>
          sh'.routing == sh.routing && sh'.convention == sh.convention && !Owner(pc'))
    && (Owner(pc) || !Transitional(sh.routing) ==> (Owner(pc') <==> Transitional(sh'.routing)))
  }

  lemma OwnersFollow(sh: Shared, threads: map<nat, Thread>, t: nat, sh': Shared, th': Thread)
    requires OwnersInv(sh, threads) && t in threads
    requires RespectsOwner(sh, threads[t].pc, sh', th'.pc)
    ensures OwnersInv(sh', threads[t := th'])
  {
    var threads' := threads[t := th'];
    if Transitional(sh'.routing) {
      if !Owner(th'.pc) {
        var o :| o in threads && Owner(threads[o].pc);
        assert o in threads' && Owner(threads'[o].pc);
      } else {
        assert t in threads' && Owner(threads'[t].pc);
      }
    }
  }

  lemma ThreadsFollow(sh: Shared, threads: map<nat, Thread>, t: nat, sh': Shared, th': Thread, seen: Seen)
    requires ThreadsInv(sh, threads, seen) && OwnersInv(sh, threads) && t in threads
    requires ThreadInv(sh', th', seen) && Forward(sh, sh')
        && RespectsOwner(sh, threads[t].pc, sh', th'.pc)
    ensures ThreadsInv(sh', threads[t := th'], seen)
  {
    forall u | u in threads && u != t ensures ThreadInv(sh', threads[u], seen) {
      OthersStable(sh, sh', threads[u], seen);
    }
  }

  lemma StepKeepsInv(s: State, e: Event, seen: Seen)
    requires Inv(s, seen) && Enabled(s, e) && e.Step?
    ensures Inv(After(s, e), seen) && Forward(s.shared, After(s, e).shared)
  {
    var th := s.threads[e.t];
    var (sh', th') := StepOf(s.shared, th, e.choice);
    ThreadStep(s.shared, th, e.choice, seen);
    ThreadsFollow(s.shared, s.threads, e.t, sh', th', seen);
    OwnersFollow(s.shared, s.threads, e.t, sh', th');
  }

  lemma BeginKeepsInv(s: State, e: Event, seen: Seen, seen': Seen)
    requires Inv(s, seen) && Enabled(s, e) && e.Begin?
    requires Grown(seen, seen') && Includes(seen', e.job)
    ensures Inv(After(s, e), seen')
  {
    hide ThreadInv, SharedInv, Transitional;
    var s' := After(s, e);
    SharedGrows(s.shared, seen, seen');
    forall u | u in s'.threads ensures ThreadInv(s'.shared, s'.threads[u], seen') {
      if u != e.t {
        ThreadGrows(s.shared, s.threads[u], seen, seen');
      } else {
        ThreadStarts(s.shared, e.job, seen');
      }
    }
    if Transitional(s.shared.routing) {
      var o :| o in s.threads && Owner(s.threads[o].pc);
      assert o in s'.threads && Owner(s'.threads[o].pc);
    }
  }

  lemma SharedGrows(sh: Shared, seen: Seen, seen': Seen)
    requires SharedInv(sh, seen) && Grown(seen, seen')
    ensures SharedInv(sh, seen')
  {
  }

  lemma ThreadGrows(sh: Shared, th: Thread, seen: Seen, seen': Seen)
    requires ThreadInv(sh, th, seen) && Grown(seen, seen')
    ensures ThreadInv(sh, th, seen')
  {
  }

  lemma ThreadStarts(sh: Shared, job: Job, seen: Seen)
    requires Includes(seen, job)
    ensures ThreadInv(sh, Thread(job, StartPc(job)), seen) && !Owner(StartPc(job))
  {
  }

  lemma ArgumentsGrow(events: seq<Event>, leaf: nat, n: nat)
    requires n < |events|
    ensures Arguments(events, leaf, n) <= Arguments(events, leaf, n + 1)
    ensures Ids(events, leaf, n) <= Ids(events, leaf, n + 1)
    ensures IsLeaf(events[n], leaf) ==>
              && events[n].job.argument in Arguments(events, leaf, n + 1)
              && Low32(events[n].job.argument) in Ids(events, leaf, n + 1)
    ensures !IsLeaf(events[n], leaf) ==>
              && Arguments(events, leaf, n + 1) == Arguments(events, leaf, n)
              && Ids(events, leaf, n + 1) == Ids(events, leaf, n)
  {
  }

  lemma SeenGrows(events: seq<Event>, n: nat)
    requires n < |events|
    ensures Grown(SeenBy(events, n), SeenBy(events, n + 1))
    ensures events[n].Begin? ==> Includes(SeenBy(events, n + 1), events[n].job)
    ensures events[n].Step? ==> SeenBy(events, n + 1) == SeenBy(events, n)
  {
    hide Arguments, Ids, Low32;
    ArgumentsGrow(events, REGISTER_RESUME_HANDLER, n);
    ArgumentsGrow(events, REGISTER_ATTRIBUTES_HANDLER, n);
    ArgumentsGrow(events, REGISTER_TARGET_PID, n);
    ArgumentsGrow(events, REGISTER_SYSTEM_SYSCALL_ID, n);
    ArgumentsGrow(events, REGISTER_ATTRIBUTES_SYSCALL_ID, n);
  }

  ghost predicate InvAt(states: seq<State>, events: seq<Event>, n: nat)
    requires n <= |events| < |states|
  {
    Inv(states[n], SeenBy(events, n))
  }

  lemma {:induction false} RunKeepsInv(states: seq<State>, events: seq<Event>, n: nat)
    requires IsRun(states, events) && n <= |events|
    ensures InvAt(states, events, n)
  {
    if n > 0 {
      var m := n - 1;
      RunKeepsInv(states, events, m);
      SeenGrows(events, m);
      if events[m].Step? {
        StepKeepsInv(states[m], events[m], SeenBy(events, m));
      } else {
        BeginKeepsInv(states[m], events[m], SeenBy(events, m), SeenBy(events, n));
      }
    }
  }

  /** A transitional routing word has exactly one owner, and owners exist only then. */
  lemma TransitionHasOneOwner(states: seq<State>, events: seq<Event>, n: nat)
    requires IsRun(states, events) && n <= |events|
    ensures var s := states[n];
            && (Transitional(s.shared.routing) <==> exists t :: t in s.threads && Owner(s.threads[t].pc))
            && forall t, u :: t in s.threads && u in s.threads && Owner(s.threads[t].pc) && Owner(s.threads[u].pc) ==>
                t == u
  {
    RunKeepsInv(states, events, n);
  }

  /** Routing follows its edges, the convention never falls back, and an observed identity is kept. */
  lemma WordsMoveForward(states: seq<State>, events: seq<Event>, n: nat)
    requires IsRun(states, events) && n < |events|
    ensures Forward(states[n].shared, states[n + 1].shared)
  {
    RunKeepsInv(states, events, n);
    if events[n].Step? {
      StepKeepsInv(states[n], events[n], SeenBy(events, n));
    }
  }

  /** Dual routing comes with the dual convention; a stored pid needs a registration. */
  lemma WordsAgree(states: seq<State>, events: seq<Event>, n: nat)
    requires IsRun(states, events) && n <= |events|
    ensures states[n].shared.routing == DualDispatching ==> states[n].shared.convention == DualDispatch
    ensures states[n].shared.targetPid != 0 ==> states[n].shared.routing != Unregistered
  {
    RunKeepsInv(states, events, n);
  }

  /** Every route ever returned goes to a target some earlier leaf registered for that way of routing,
      and the call's number, R10 and RCX entitle it to that way. */
  lemma RoutesWereRegistered(states: seq<State>, events: seq<Event>, n: nat, t: nat)
    requires IsRun(states, events) && n <= |events| && t in states[n].threads
    requires states[n].threads[t].pc.Routed? && states[n].threads[t].pc.route.Some?
    ensures states[n].threads[t].job.Syscall?
    ensures var route := states[n].threads[t].pc.route.value;
            route.target != 0 && Explained(states[n].threads[t].job, route, SeenBy(events, n))
  {
    hide SharedInv, OwnersInv, SeenBy, IsRun, Explained;
    RunKeepsInv(states, events, n);
  }

  lemma {:induction false} DualConventionStays(states: seq<State>, events: seq<Event>, m: nat, n: nat)
    requires IsRun(states, events) && m <= n <= |events|
    requires states[m].shared.convention == DualDispatch
    ensures states[n].shared.convention == DualDispatch
    decreases n - m
  {
    hide After, Enabled, IsRun;
    if m < n {
      DualConventionStays(states, events, m, n - 1);
      WordsMoveForward(states, events, n - 1);
    }
  }

  predicate DualRoutePc(pc: Pc) {
    || pc.RouteRouting? || pc.RouteConvention? || pc.RouteSystemId? || pc.RouteSystemTarget?
    || pc.RouteAttributesId? || pc.RouteAttributesTarget?
    || (pc.Routed? && (pc.route.Some? ==> !pc.route.value.raxIsResume))
  }

  /** A syscall that starts routing after dual dispatch is on is never sent down the resume path. */
  lemma {:induction false} DualRoutesNeverResume(states: seq<State>, events: seq<Event>, b: nat, n: nat)
    requires IsRun(states, events) && b < n <= |events|
    requires events[b].Begin? && events[b].job.Syscall? && states[b].shared.convention == DualDispatch
    requires forall i :: b < i < n ==> events[i].Begin? ==> events[i].t != events[b].t
    ensures events[b].t in states[n].threads && DualRoutePc(states[n].threads[events[b].t].pc)
    ensures states[n].threads[events[b].t].job == events[b].job
    decreases n - b
  {
    if b + 1 < n {
      DualRoutesNeverResume(states, events, b, n - 1);
      DualConventionStays(states, events, b, n - 1);
    }
  }

  predicate Waiting(pc: Pc) { pc.RegWait? || pc.ActWait? }

  function WaitsOf(pc: Pc): nat
    requires Waiting(pc)
  {
    match pc case RegWait(n) => n case ActWait(n) => n
  }

  /** How many of thread `t`'s latest steps in a row were waiting loads that found the routing word
      still transitional. */
  ghost function Spun(states: seq<State>, events: seq<Event>, t: nat, n: nat): nat
    requires n <= |events| < |states|
  {
    if n == 0 then 0
    else
      var e, s := events[n - 1], states[n - 1];
      if e.t != t then Spun(states, events, t, n - 1)
      else if e.Step? && t in s.threads && Waiting(s.threads[t].pc) && Transitional(s.shared.routing) then
        Spun(states, events, t, n - 1) + 1
      else 0
  }

  lemma WaitingStep(s: State, e: Event, t: nat)
    requires Enabled(s, e) && t in After(s, e).threads && Waiting(After(s, e).threads[t].pc)
    ensures e.t == t ==> e.Step? && t in s.threads
    ensures e.t == t && Waiting(s.threads[t].pc) ==>
              Transitional(s.shared.routing) && WaitsOf(After(s, e).threads[t].pc) == WaitsOf(s.threads[t].pc) + 1
    ensures e.t == t && !Waiting(s.threads[t].pc) ==> WaitsOf(After(s, e).threads[t].pc) == 0
    ensures e.t != t ==> t in s.threads && s.threads[t] == After(s, e).threads[t]
  {
    hide RouteTo, Low32;
  }

  lemma {:induction false} WaitsAreSpins(states: seq<State>, events: seq<Event>, t: nat, n: nat)
    requires IsRun(states, events) && n <= |events| && t in states[n].threads && Waiting(states[n].threads[t].pc)
    ensures WaitsOf(states[n].threads[t].pc) == Spun(states, events, t, n)
  {
    hide Enabled, After, Waiting, WaitsOf, Transitional;
    if n > 0 {
      WaitingStep(states[n - 1], events[n - 1], t);
      if Waiting(states[n - 1].threads[t].pc) {
        WaitsAreSpins(states, events, t, n - 1);
      }
    }
  }

  /** A registering leaf that is passed on to the native CPUID had its patch refused, or has just found
      the routing word transitional 4096 times in a row. */
  lemma GivesUpOnlyAfterWaiting(states: seq<State>, events: seq<Event>, n: nat)
    requires IsRun(states, events) && n < |events| && events[n].Step?
    requires states[n].threads[events[n].t].job.Control? && IsRegistration(states[n].threads[events[n].t].job.leaf)
    ensures states[n + 1].threads[events[n].t].pc == Done(Native) <==>
            || (states[n].threads[events[n].t].pc == RegPatch && !events[n].choice)
            || (Waiting(states[n].threads[events[n].t].pc) && Spun(states, events, events[n].t, n) == 4096)
  {
    hide RouteTo, Low32;
    var t := events[n].t;
    if Waiting(states[n].threads[t].pc) {
      WaitsAreSpins(states, events, t, n);
    }
  }
}
