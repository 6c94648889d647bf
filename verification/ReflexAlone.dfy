/**
 The atomic steps of `ReflexRuns`, taken by one thread with nobody else about, are the sequential
 machine: every leaf leaves the words its history calls for and gets the answer its history calls
 for, and every syscall is routed as recomputed from the leaves.
 */
module ReflexAlone {
  import opened Common
  import opened SyscallRoute
  import opened ControlHistory
  import opened ReflexObject
  import opened ReflexRuns

  ghost function Last(h: History, leaf: nat, missing: nat): nat {
    var p := LastPayload(h, leaf);
    if p.Some? then p.value else missing
  }

  /** The shared words are those of history `h`. */
  ghost predicate Agrees(sh: Shared, h: History) {
    && sh.routing == (if DualActive(h) then DualDispatching else if Registered(h) then ResumeTarget else Unregistered)
    && sh.identity == IdentityOf(h) && sh.targetPid == LastPid(h) && sh.convention == ConventionOf(h)
    && (DualActive(h) ==> sh.systemTarget == LastHandler(h))
    && (!DualActive(h) ==> sh.resumeTarget == LastHandler(h) && sh.systemTarget == 0)
    && sh.systemId == Low32(Last(h, REGISTER_SYSTEM_SYSCALL_ID, U32_MAX))
    && sh.attributesId == Low32(Last(h, REGISTER_ATTRIBUTES_SYSCALL_ID, U32_MAX))
    && sh.attributesTarget == Last(h, REGISTER_ATTRIBUTES_HANDLER, 0)
  }

  /** What the host answers at the steps that ask it; no compare-exchange fails by itself. */
  function Choice(c: Call, pc: Pc): bool {
    match pc
    case RegStoreConvention => c.profile != 0
    case RegPatch => c.patchOk
    case PidPatch => c.patchOk
    case _ => false
  }

  /** `n` steps of one thread. */
  function Steps(sh: Shared, th: Thread, c: Call, n: nat): (Shared, Thread)
    decreases n
  {
    if n == 0 || Finished(th.pc) || !Fits(th) then (sh, th)
    else
      var next := StepOf(sh, th, Choice(c, th.pc));
      Steps(next.0, next.1, c, n - 1)
  }

  function JobOf(c: Call): Job { Control(c.leaf, if c.leaf == 0x1337 then c.rdx else c.rcx) }

  function Begun(job: Job): Thread { Thread(job, StartPc(job)) }

  /** One step out of `n`. */
  lemma Go(sh: Shared, job: Job, pc: Pc, c: Call, n: nat) returns (sh': Shared, pc': Pc)
    requires n > 0 && Fits(Thread(job, pc)) && !Finished(pc)
    ensures (sh', Thread(job, pc')) == StepOf(sh, Thread(job, pc), Choice(c, pc))
    ensures Steps(sh, Thread(job, pc), c, n) == Steps(sh', Thread(job, pc'), c, n - 1)
  {
    hide RegisterStep, RouteStep, Fits;
    var next := StepOf(sh, Thread(job, pc), Choice(c, pc));
    sh', pc' := next.0, next.1.pc;
  }

  lemma Rest(sh: Shared, th: Thread, c: Call, n: nat)
    requires Finished(th.pc)
    ensures Steps(sh, th, c, n) == (sh, th)
  {
  }

  /** A handler leaf: identity, the routing check, then the way the routing word shows. */
  lemma HandlerSteps(sh: Shared, c: Call) returns (sh': Shared, action: Action)
    requires c.leaf == REGISTER_RESUME_HANDLER && !Transitional(sh.routing)
    ensures Steps(sh, Begun(JobOf(c)), c, 8) == (sh', Thread(JobOf(c), Done(action)))
    ensures var sh1 := if sh.identity == Unobserved then sh.(identity := DebugRegisterThread) else sh;
            match sh.routing
            case DualDispatching => action == Consumed && sh' == sh1.(systemTarget := c.rcx)
            case ResumeTarget =>
              if c.patchOk then action == Consumed && sh' == sh1.(resumeTarget := c.rcx)
              else action == Native && sh' == sh1
            case _ =>
              && action == Consumed && sh'.convention == (if c.profile != 0 then SelectorDispatch else sh.convention)
              && sh' == sh1.(resumeTarget := c.rcx, routing := ResumeTarget, convention := sh'.convention)
  {
    hide Steps, ActivateStep;
    var job, pc := JobOf(c), IdentityCas;
    sh' := sh;
    sh', pc := Go(sh', job, pc, c, 8);
    sh', pc := Go(sh', job, pc, c, 7);
    if sh.routing == DualDispatching {
      sh', pc := Go(sh', job, pc, c, 6);
    } else if sh.routing == ResumeTarget {
      sh', pc := Go(sh', job, pc, c, 6);
      if c.patchOk { sh', pc := Go(sh', job, pc, c, 5); }
    } else {
      sh', pc := Go(sh', job, pc, c, 6);
      sh', pc := Go(sh', job, pc, c, 5);
      sh', pc := Go(sh', job, pc, c, 4);
      sh', pc := Go(sh', job, pc, c, 3);
    }
    action := pc.action;
    Rest(sh', Thread(job, pc), c, if sh.routing == DualDispatching then 5
         else if sh.routing == ResumeTarget then if c.patchOk then 4 else 5 else 2);
  }

  function WithPayload(sh: Shared, c: Call): Shared {
    if c.leaf == REGISTER_SYSTEM_SYSCALL_ID then sh.(systemId := Low32(c.rcx))
    else if c.leaf == REGISTER_ATTRIBUTES_HANDLER then sh.(attributesTarget := c.rcx)
    else sh.(attributesId := Low32(c.rcx))
  }

  /** A dual leaf: promotion unless it has happened, then the payload. */
  lemma DualSteps(sh: Shared, c: Call) returns (sh': Shared)
    requires IsDualLeaf(c.leaf) && !Transitional(sh.routing)
    requires sh.routing != DualDispatching ==> sh.systemTarget == 0
    ensures Steps(sh, Begun(JobOf(c)), c, 8) == (sh', Thread(JobOf(c), Done(Consumed)))
    ensures sh' == WithPayload(if sh.routing == DualDispatching then sh
                               else sh.(systemTarget := sh.resumeTarget, convention := DualDispatch,
                                        routing := DualDispatching), c)
  {
    hide Steps, Low32;
    var job, pc := JobOf(c), ActLoad;
    sh' := sh;
    sh', pc := Go(sh', job, pc, c, 8);
    if sh.routing == DualDispatching {
      sh', pc := Go(sh', job, pc, c, 7);
    } else {
      sh', pc := Go(sh', job, pc, c, 7);
      sh', pc := Go(sh', job, pc, c, 6);
      sh', pc := Go(sh', job, pc, c, 5);
      sh', pc := Go(sh', job, pc, c, 4);
      sh', pc := Go(sh', job, pc, c, 3);
      sh', pc := Go(sh', job, pc, c, 2);
      sh', pc := Go(sh', job, pc, c, 1);
    }
    Rest(sh', Thread(job, pc), c, if sh.routing == DualDispatching then 6 else 0);
  }

  /** The remaining leaves: pid, identity, and those that touch no word. */
  lemma OtherSteps(sh: Shared, c: Call) returns (sh': Shared, action: Action)
    requires !IsRegistration(c.leaf) && !Transitional(sh.routing)
    ensures Steps(sh, Begun(JobOf(c)), c, 8) == (sh', Thread(JobOf(c), Done(action)))
    ensures sh' == if c.leaf == ARM_TARGET_CR3 then sh.(identity := Process)
                   else if c.leaf == REGISTER_TARGET_PID && sh.routing != Unregistered then sh.(targetPid := c.rdx)
                   else sh
    ensures action == Consumed <==>
            || (c.leaf == ARM_TARGET_CR3 && sh.routing != ResumeTarget) || c.leaf == SET_TIME
            || (c.leaf == REGISTER_TARGET_PID && sh.routing != Unregistered && c.patchOk)
  {
    hide Steps, ActivateStep;
    var job := JobOf(c);
    var pc := StartPc(job);
    sh' := sh;
    if c.leaf == ARM_TARGET_CR3 {
      sh', pc := Go(sh', job, pc, c, 8);
      sh', pc := Go(sh', job, pc, c, 7);
    } else if c.leaf == REGISTER_TARGET_PID {
      sh', pc := Go(sh', job, pc, c, 8);
      if sh.routing != Unregistered {
        sh', pc := Go(sh', job, pc, c, 7);
        sh', pc := Go(sh', job, pc, c, 6);
      }
    }
    action := pc.action;
    Rest(sh', Thread(job, pc), c, if c.leaf == ARM_TARGET_CR3 then 6
         else if c.leaf == REGISTER_TARGET_PID then if sh.routing != Unregistered then 5 else 7 else 8);
  }

  /** Alone, a leaf's steps take the words of history `h` to those of `h + [c]`, and the leaf is
      answered Consumed exactly if that history says so. */
  lemma LeafAlone(h: History, c: Call, sh: Shared)
    requires Agrees(sh, h)
    ensures var (sh', th') := Steps(sh, Begun(JobOf(c)), c, 8);
            Agrees(sh', h + [c]) && th'.pc == Done(if Consumes(h, c) then Consumed else Native)
  {
    Append(h, c);
    AppendConvention(h, c);
    hide Steps, DualActive, Registered, Received, ConventionOf;
    if c.leaf == REGISTER_RESUME_HANDLER {
      var sh', action := HandlerSteps(sh, c);
    } else if IsDualLeaf(c.leaf) {
      var sh' := DualSteps(sh, c);
    } else {
      var sh', action := OtherSteps(sh, c);
    }
  }

  /** The dual branch, from the id check on. */
  lemma DualRouteSteps(sh: Shared, number: nat, r10: int, rcx: nat, c: Call) returns (pc: Pc)
    ensures pc.Routed?
    ensures Steps(sh, Thread(Syscall(number, r10, rcx), RouteSystemId), c, 3) ==
            (sh, Thread(Syscall(number, r10, rcx), pc))
    ensures pc.route == if Low32(number) == sh.systemId then
                          if r10 != 0 || rcx > USER_RCX_MAX then None else RouteTo(sh.systemTarget, false)
                        else if Low32(number) == sh.attributesId && rcx <= USER_RCX_MAX then
                          RouteTo(sh.attributesTarget, false)
                        else None
  {
    hide Steps, Low32, RouteTo;
    var job, sh' := Syscall(number, r10, rcx), sh;
    sh', pc := Go(sh, job, RouteSystemId, c, 3);
    var n: nat := 2;
    if !pc.Routed? {
      sh', pc := Go(sh, job, pc, c, 2);
      n := 1;
      if !pc.Routed? {
        sh', pc := Go(sh, job, pc, c, 1);
        n := 0;
      }
    }
    Rest(sh, Thread(job, pc), c, n);
  }

  /** The routing and convention checks, and the resume path. */
  lemma RouteSteps(sh: Shared, number: nat, r10: int, rcx: nat, c: Call) returns (pc: Pc)
    ensures pc.Routed?
    ensures Steps(sh, Begun(Syscall(number, r10, rcx)), c, 5) == (sh, Thread(Syscall(number, r10, rcx), pc))
    ensures sh.routing == Unregistered ==> pc.route == None
    ensures sh.routing == ResumeTarget || sh.routing == DualDispatching ==>
              match sh.convention
              case ResumeReplay => pc.route == RouteTo(sh.resumeTarget, true)
              case SelectorDispatch =>
                pc.route == if (number == SELECTOR_A || number == SELECTOR_B) && rcx <= USER_RCX_MAX
                            then RouteTo(sh.resumeTarget, false) else None
              case DualDispatch =>
                pc.route == if number == DISPATCH_BYPASS_SYSCALL then None
                            else if Low32(number) == sh.systemId then
                              if r10 != 0 || rcx > USER_RCX_MAX then None else RouteTo(sh.systemTarget, false)
                            else if Low32(number) == sh.attributesId && rcx <= USER_RCX_MAX then
                              RouteTo(sh.attributesTarget, false)
                            else None
  {
    hide Steps, Low32, RouteTo;
    var job, sh' := Syscall(number, r10, rcx), sh;
    sh', pc := Go(sh, job, RouteRouting, c, 5);
    var n: nat := 4;
    if !pc.Routed? {
      sh', pc := Go(sh, job, pc, c, 4);
      n := 3;
      if pc.RouteResume? {
        sh', pc := Go(sh, job, pc, c, 3);
        n := 2;
      } else if pc.RouteSystemId? {
        pc := DualRouteSteps(sh, number, r10, rcx, c);
        return;
      }
    }
    Rest(sh, Thread(job, pc), c, n);
  }

  /** Alone, a syscall is routed as recomputed from the leaves. */
  lemma RouteAlone(h: History, sh: Shared, number: nat, r10: int, rcx: nat, c: Call)
    requires Agrees(sh, h)
    ensures Steps(sh, Begun(Syscall(number, r10, rcx)), c, 5) ==
            (sh, Thread(Syscall(number, r10, rcx), Routed(RouteSpec(h, number, r10, rcx))))
  {
    assert Low32(U32_MAX) == U32_MAX;
    hide Steps, DualActive, Registered, Low32, IdentityOf, LastPid, LastPayload, LastHandler, ConventionOf;
    DualIsDual(h);
    var pc := RouteSteps(sh, number, r10, rcx, c);
  }

  lemma DualIsDual(h: History)
    ensures DualActive(h) ==> Registered(h) && ConventionOf(h) == DualDispatch
    ensures !DualActive(h) ==> ConventionOf(h) != DualDispatch
  {
  }

  /** The words a process starts with are those of the empty history. */
  lemma FreshAgrees()
    ensures Agrees(Fresh, [])
  {
  }
}
