/**
 The control-leaf state machine run sequentially.  `ControlHistory` says, from the list of leaves
 received so far, what is registered and where a trapped syscall goes; `ReflexState` is the object
 whose words are updated one leaf at a time.
 */
module ControlHistory {
  import opened Common
  import opened SyscallRoute
  import opened PatchWords

  const ARM_TARGET_CR3: nat := 0x6969_6969
  const REGISTER_RESUME_HANDLER: nat := 0x0033_6933
  const SET_TIME: nat := 0x0033_6967
  const REGISTER_SYSTEM_SYSCALL_ID: nat := 0x0033_6943
  const REGISTER_ATTRIBUTES_HANDLER: nat := 0x0033_6934
  const REGISTER_ATTRIBUTES_SYSCALL_ID: nat := 0x0033_6944
  const CLIENT_SESSION_MARKER: nat := 0x0069_3369
  const REGISTER_TARGET_PID: nat := 0x1337
  const SELECTOR_A: nat := 0x1337_1337
  const SELECTOR_B: nat := 0x1337_1338
  const USER_RCX_MAX: nat := 0x7fff_ffff_ffff
  const DISPATCH_BYPASS_SYSCALL: nat := 0x7fff_ffff_ffff
  const U32_MAX: nat := 0xffff_ffff

  datatype Convention = ResumeReplay | SelectorDispatch | DualDispatch

  datatype Identity = Unobserved | Process | DebugRegisterThread

  /** One control leaf with the host's answers while it is handled: `profile` is the CPU
      presentation's recipe number and `patchOk` the result of a KUSER patch request. */
  datatype Call = Call(leaf: nat, rcx: nat, rdx: nat, profile: int, patchOk: bool)

  type History = seq<Call>

  function Low32(x: nat): nat { x % 0x1_0000_0000 }

  predicate IsDualLeaf(leaf: nat) {
    leaf == REGISTER_SYSTEM_SYSCALL_ID || leaf == REGISTER_ATTRIBUTES_HANDLER || leaf == REGISTER_ATTRIBUTES_SYSCALL_ID
  }

  predicate IsRegistration(leaf: nat) { leaf == REGISTER_RESUME_HANDLER || IsDualLeaf(leaf) }

  ghost predicate Received(h: History, leaf: nat) { exists i :: 0 <= i < |h| && h[i].leaf == leaf }

  ghost predicate DualActive(h: History) { exists i :: 0 <= i < |h| && IsDualLeaf(h[i].leaf) }

  ghost predicate Registered(h: History) { exists i :: 0 <= i < |h| && IsRegistration(h[i].leaf) }

  /** `i` is where the first registration happened. */
  ghost predicate FirstRegistration(h: History, i: nat) {
    i < |h| && IsRegistration(h[i].leaf) && forall j :: 0 <= j < i ==> !IsRegistration(h[j].leaf)
  }

  /** A handler is accepted unless it replaces a resume target and the patch it needs fails. */
  ghost predicate Accepts(h: History, c: Call) {
    c.leaf == REGISTER_RESUME_HANDLER && (DualActive(h) || !Registered(h) || c.patchOk)
  }

  ghost function LastHandler(h: History): nat {
    if h == [] then 0
    else
      var before, c := h[..|h| - 1], h[|h| - 1];
      if Accepts(before, c) then c.rcx else LastHandler(before)
  }

  ghost function LastPayload(h: History, leaf: nat): Option<nat> {
    if h == [] then None
    else if h[|h| - 1].leaf == leaf then Some(h[|h| - 1].rcx)
    else LastPayload(h[..|h| - 1], leaf)
  }

  /** The process id of the last target-pid leaf that found a registration. */
  ghost function LastPid(h: History): nat {
    if h == [] then 0
    else
      var before, c := h[..|h| - 1], h[|h| - 1];
      if c.leaf == REGISTER_TARGET_PID && Registered(before) then c.rdx else LastPid(before)
  }

  ghost function ConventionOf(h: History): Convention {
    if DualActive(h) then DualDispatch
    else if exists i: nat :: FirstRegistration(h, i) && h[i].profile != 0 then SelectorDispatch
    else ResumeReplay
  }

  ghost function IdentityOf(h: History): Identity {
    if Received(h, ARM_TARGET_CR3) then Process
    else if Received(h, REGISTER_RESUME_HANDLER) then DebugRegisterThread
    else Unobserved
  }

  function SelectorRecipe(profile: int): Recipe { if profile == 2 then Dispatch else Selector }

  function RecipeFor(convention: Convention, profile: int): Recipe {
    match convention
    case ResumeReplay => Resume
    case SelectorDispatch => SelectorRecipe(profile)
    case DualDispatch => Dispatch
  }

  /** The KUSER patch that leaf `c` asks for after history `h`, if any. */
  ghost function PatchRequest(h: History, c: Call): Option<Recipe> {
    if c.leaf == REGISTER_TARGET_PID && Registered(h) then Some(RecipeFor(ConventionOf(h), c.profile))
    else if c.leaf == REGISTER_RESUME_HANDLER && Registered(h) && !DualActive(h) then
      Some(RecipeFor(ConventionOf(h), c.profile))
    else None
  }

  /** Whether the leaf is answered by the runtime rather than passed to the native CPUID. */
  ghost predicate Consumes(h: History, c: Call) {
    || (c.leaf == ARM_TARGET_CR3 && !(Registered(h) && !DualActive(h)))
    || Accepts(h, c)
    || c.leaf == SET_TIME
    || (c.leaf == REGISTER_TARGET_PID && Registered(h) && c.patchOk)
    || IsDualLeaf(c.leaf)
  }

  /** An id matches its registered payload; with no registration it matches the 32-bit maximum. */
  ghost predicate IdMatches(h: History, leaf: nat, number: nat) {
    var payload := LastPayload(h, leaf);
    Low32(number) == if payload.Some? then Low32(payload.value) else U32_MAX
  }

  function RouteTo(target: nat, raxIsResume: bool): Option<Route> {
    if target == 0 then None else Some(Route(target, raxIsResume))
  }

  /** Where a trapped syscall goes, recomputed from the leaves received. */
  ghost function RouteSpec(h: History, number: nat, r10: int, rcx: nat): Option<Route> {
    if !Registered(h) then None
    else match ConventionOf(h)
      case ResumeReplay => RouteTo(LastHandler(h), true)
      case SelectorDispatch =>
        if (number == SELECTOR_A || number == SELECTOR_B) && rcx <= USER_RCX_MAX then RouteTo(LastHandler(h), false)
        else None
      case DualDispatch =>
        if number == DISPATCH_BYPASS_SYSCALL || rcx > USER_RCX_MAX then None
        else if IdMatches(h, REGISTER_SYSTEM_SYSCALL_ID, number) then
          if r10 == 0 then RouteTo(LastHandler(h), false) else None
        else if IdMatches(h, REGISTER_ATTRIBUTES_SYSCALL_ID, number) then
          var target := LastPayload(h, REGISTER_ATTRIBUTES_HANDLER);
          if target.Some? then RouteTo(target.value, false) else None
        else None
  }

  lemma Append(h: History, c: Call)
    ensures (h + [c])[..|h|] == h && (h + [c])[|h|] == c
    ensures DualActive(h + [c]) <==> DualActive(h) || IsDualLeaf(c.leaf)
    ensures Registered(h + [c]) <==> Registered(h) || IsRegistration(c.leaf)
    ensures forall leaf :: Received(h + [c], leaf) <==> Received(h, leaf) || c.leaf == leaf
    ensures DualActive(h) ==> Registered(h)
  {
    var g := h + [c];
    assert g[..|h|] == h && g[|h|] == c;
    assert forall i :: 0 <= i < |h| ==> g[i] == h[i];
  }

  lemma AppendConvention(h: History, c: Call)
    ensures Registered(h) && !IsDualLeaf(c.leaf) ==> ConventionOf(h + [c]) == ConventionOf(h)
    ensures !Registered(h) && c.leaf == REGISTER_RESUME_HANDLER ==>
              ConventionOf(h + [c]) == if c.profile != 0 then SelectorDispatch else ResumeReplay
    ensures !Registered(h) ==> ConventionOf(h) == ResumeReplay
    ensures !Registered(h) && !IsRegistration(c.leaf) ==> ConventionOf(h + [c]) == ResumeReplay
    ensures DualActive(h) ==> ConventionOf(h) == DualDispatch
    ensures DualActive(h + [c]) ==> ConventionOf(h + [c]) == DualDispatch
  {
    Append(h, c);
    var g := h + [c];
    if Registered(h) {
      var k :| 0 <= k < |h| && IsRegistration(h[k].leaf);
      assert g[k] == h[k];
      assert forall i: nat :: FirstRegistration(g, i) <==> FirstRegistration(h, i);
      assert forall i: nat :: FirstRegistration(h, i) ==> h[i] == g[i];
    } else {
      assert forall i: nat :: FirstRegistration(g, i) ==> i == |h|;
      if c.leaf == REGISTER_RESUME_HANDLER {
        assert FirstRegistration(g, |h|);
      }
    }
  }

  /** Re-registering a handler whose patch fails changes no route. */
  lemma RejectedHandlerChangesNoRoute(h: History, c: Call, number: nat, r10: int, rcx: nat)
    requires c.leaf == REGISTER_RESUME_HANDLER && !Accepts(h, c)
    ensures RouteSpec(h + [c], number, r10, rcx) == RouteSpec(h, number, r10, rcx)
    ensures LastHandler(h + [c]) == LastHandler(h)
  {
    Append(h, c);
    AppendConvention(h, c);
  }

  /** The first dual leaf turns the last accepted handler into the system handler. */
  lemma PromotionKeepsHandler(h: History, c: Call, number: nat, rcx: nat)
    requires !DualActive(h) && c.leaf == REGISTER_SYSTEM_SYSCALL_ID
    requires Low32(number) == Low32(c.rcx) && number != DISPATCH_BYPASS_SYSCALL && rcx <= USER_RCX_MAX
    ensures RouteSpec(h + [c], number, 0, rcx) == RouteTo(LastHandler(h), false)
  {
    Append(h, c);
  }

  /** The convention moves only forward and is fixed by the first registration until promotion. */
  lemma ConventionOnlyPromoted(h: History, c: Call)
    requires Registered(h)
    ensures ConventionOf(h + [c]) == ConventionOf(h) || ConventionOf(h + [c]) == DualDispatch
    ensures ConventionOf(h) == DualDispatch ==> ConventionOf(h + [c]) == DualDispatch
  {
    Append(h, c);
    AppendConvention(h, c);
  }

  /** With no ids registered, dual dispatch routes exactly the calls that hit the unset sentinel. */
  lemma UnsetIdsRouteOnlySentinel(h: History, number: nat, r10: int, rcx: nat)
    requires DualActive(h)
    requires LastPayload(h, REGISTER_SYSTEM_SYSCALL_ID).None?
    requires LastPayload(h, REGISTER_ATTRIBUTES_SYSCALL_ID).None?
    ensures RouteSpec(h, number, r10, rcx).Some? <==>
              && Low32(number) == U32_MAX && number != DISPATCH_BYPASS_SYSCALL
              && rcx <= USER_RCX_MAX && r10 == 0 && LastHandler(h) != 0
  {
    assert Registered(h);
  }

  /** `i` is the latest leaf of one kind. */
  ghost predicate LatestLeaf(h: History, leaf: nat, i: nat) {
    i < |h| && h[i].leaf == leaf && forall j :: i < j < |h| ==> h[j].leaf != leaf
  }

  /** `i` is the latest handler leaf that was accepted when it came. */
  ghost predicate LatestAccepted(h: History, i: nat) {
    i < |h| && Accepts(h[..i], h[i]) && forall j :: i < j < |h| ==> !Accepts(h[..j], h[j])
  }

  /** `i` is the latest target-pid leaf that found a registration. */
  ghost predicate LatestPid(h: History, i: nat) {
    && i < |h| && h[i].leaf == 0x1337 && Registered(h[..i])
    && forall j :: i < j < |h| && h[j].leaf == 0x1337 ==> !Registered(h[..j])
  }

  lemma {:induction false} LastPayloadAt(h: History, leaf: nat, i: nat)
    requires LatestLeaf(h, leaf, i)
    ensures LastPayload(h, leaf) == Some(h[i].rcx)
  {
    if i < |h| - 1 {
      LastPayloadAt(h[..|h| - 1], leaf, i);
    }
  }

  lemma {:induction false} NoPayload(h: History, leaf: nat)
    requires forall i :: 0 <= i < |h| ==> h[i].leaf != leaf
    ensures LastPayload(h, leaf).None?
  {
    if h != [] {
      NoPayload(h[..|h| - 1], leaf);
    }
  }

  lemma LastPayloadIs(h: History, leaf: nat)
    ensures forall i: nat :: LatestLeaf(h, leaf, i) ==> LastPayload(h, leaf) == Some(h[i].rcx)
    ensures !Received(h, leaf) ==> LastPayload(h, leaf).None?
  {
    hide LatestLeaf, LastPayload;
    forall i: nat | LatestLeaf(h, leaf, i) ensures i < |h| && LastPayload(h, leaf) == Some(h[i].rcx) {
      LastPayloadAt(h, leaf, i);
      LatestInside(h, leaf, i);
    }
    if !Received(h, leaf) {
      NoPayload(h, leaf);
    }
  }

  lemma LatestInside(h: History, leaf: nat, i: nat)
    requires LatestLeaf(h, leaf, i)
    ensures i < |h|
  {
  }

  lemma {:induction false} LastHandlerIs(h: History)
    ensures forall i: nat :: LatestAccepted(h, i) ==> LastHandler(h) == h[i].rcx
    ensures (forall i :: 0 <= i < |h| ==> !Accepts(h[..i], h[i])) ==> LastHandler(h) == 0
  {
    hide Accepts;
    if h != [] {
      var before := h[..|h| - 1];
      LastHandlerIs(before);
      assert forall j :: 0 <= j < |before| ==> before[..j] == h[..j] && before[j] == h[j];
      forall i: nat | LatestAccepted(h, i) && i < |before| ensures LatestAccepted(before, i) {
      }
    }
  }

  lemma {:induction false} LastPidIs(h: History)
    ensures forall i: nat :: LatestPid(h, i) ==> LastPid(h) == h[i].rdx
  {
    hide Registered;
    if h != [] {
      var before := h[..|h| - 1];
      LastPidIs(before);
      assert forall j :: 0 <= j < |before| ==> before[..j] == h[..j] && before[j] == h[j];
      forall i: nat | LatestPid(h, i) && i < |before| ensures LatestPid(before, i) {
      }
    }
  }

  /** The system id is the one registered last; with none registered, the unset sentinel. */
  ghost predicate IsSystemId(h: History, number: nat) {
    || (exists i: nat :: LatestLeaf(h, 0x336943, i) && number % 0x1_0000_0000 == h[i].rcx % 0x1_0000_0000)
    || (!Received(h, 0x336943) && number % 0x1_0000_0000 == 0xffff_ffff)
  }

  ghost predicate IsAttributesId(h: History, number: nat) {
    || (exists i: nat :: LatestLeaf(h, 0x336944, i) && number % 0x1_0000_0000 == h[i].rcx % 0x1_0000_0000)
    || (!Received(h, 0x336944) && number % 0x1_0000_0000 == 0xffff_ffff)
  }

  lemma {:induction false} LatestExists(h: History, leaf: nat) returns (i: nat)
    requires Received(h, leaf)
    ensures LatestLeaf(h, leaf, i)
  {
    if h[|h| - 1].leaf == leaf {
      i := |h| - 1;
    } else {
      i := LatestExists(h[..|h| - 1], leaf);
      assert forall j :: 0 <= j < |h| - 1 ==> h[..|h| - 1][j] == h[j];
    }
  }

  lemma IdsFromLeaves(h: History, number: nat)
    ensures IdMatches(h, REGISTER_SYSTEM_SYSCALL_ID, number) <==> IsSystemId(h, number)
    ensures IdMatches(h, REGISTER_ATTRIBUTES_SYSCALL_ID, number) <==> IsAttributesId(h, number)
  {
    LastPayloadIs(h, 0x336943);
    LastPayloadIs(h, 0x336944);
    if Received(h, 0x336943) { var i := LatestExists(h, 0x336943); }
    if Received(h, 0x336944) { var i := LatestExists(h, 0x336944); }
  }

  /** Under dual dispatch the attributes id, unless it is also the system id, goes to the handler of
      the latest 0x336934 leaf whatever R10 is. */
  lemma AttributesRoute(h: History, b: nat, number: nat, r10: int, rcx: nat)
    requires LatestLeaf(h, 0x336934, b) && h[b].rcx != 0
    requires IsAttributesId(h, number) && !IsSystemId(h, number)
    requires number != 0x7fff_ffff_ffff && rcx <= 0x7fff_ffff_ffff
    ensures RouteSpec(h, number, r10, rcx) == Some(Route(h[b].rcx, false))
  {
    IdsFromLeaves(h, number);
    LastPayloadIs(h, 0x336934);
    assert IsDualLeaf(h[b].leaf);
  }

  /** Under dual dispatch the system id goes to the handler accepted last, and only with R10 zero. */
  lemma SystemRoute(h: History, a: nat, number: nat, r10: int, rcx: nat)
    requires DualActive(h) && LatestAccepted(h, a) && h[a].rcx != 0 && IsSystemId(h, number)
    requires number != 0x7fff_ffff_ffff && rcx <= 0x7fff_ffff_ffff
    ensures RouteSpec(h, number, r10, rcx) == if r10 == 0 then Some(Route(h[a].rcx, false)) else None
  {
    IdsFromLeaves(h, number);
    LastHandlerIs(h);
  }

  /** Dual dispatch routes nothing but those two ids, in user range, and never the bypass number. */
  lemma DualRoutesOnlyIds(h: History, number: nat, r10: int, rcx: nat)
    requires DualActive(h) && RouteSpec(h, number, r10, rcx).Some?
    ensures number != 0x7fff_ffff_ffff && rcx <= 0x7fff_ffff_ffff
    ensures (IsSystemId(h, number) && r10 == 0) || IsAttributesId(h, number)
  {
    IdsFromLeaves(h, number);
  }

  /** Before any dual leaf, a first registration under a legacy presentation routes exactly the two
      selector numbers in user range, to the handler accepted last. */
  lemma SelectorRoute(h: History, f: nat, a: nat, number: nat, r10: int, rcx: nat)
    requires !DualActive(h) && FirstRegistration(h, f) && h[f].profile != 0 && LatestAccepted(h, a) && h[a].rcx != 0
    ensures RouteSpec(h, number, r10, rcx) ==
            if (number == 0x1337_1337 || number == 0x1337_1338) && rcx <= 0x7fff_ffff_ffff
            then Some(Route(h[a].rcx, false)) else None
  {
    LastHandlerIs(h);
    OneFirst(h, f);
  }

  /** Otherwise every syscall goes to the handler accepted last, with RAX as the resume point. */
  lemma ResumeRoute(h: History, f: nat, a: nat, number: nat, r10: int, rcx: nat)
    requires !DualActive(h) && FirstRegistration(h, f) && h[f].profile == 0 && LatestAccepted(h, a) && h[a].rcx != 0
    ensures RouteSpec(h, number, r10, rcx) == Some(Route(h[a].rcx, true))
  {
    LastHandlerIs(h);
    OneFirst(h, f);
  }

  lemma OneFirst(h: History, f: nat)
    requires FirstRegistration(h, f)
    ensures Registered(h) && forall i: nat :: FirstRegistration(h, i) ==> i == f
  {
  }

  /** The patch a leaf must ask for, told from the leaves alone: none unless something is registered;
      Dispatch after any dual leaf; before one, Resume if the first registration came under the modern
      presentation, else the recipe of the legacy presentation in force now. */
  ghost predicate RightRequest(h: History, c: Call, request: Option<Recipe>) {
    if !Registered(h) || !(c.leaf == 0x1337 || (c.leaf == 0x336933 && !DualActive(h))) then request == None
    else if DualActive(h) then request == Some(Dispatch)
    else
      && (forall f: nat :: FirstRegistration(h, f) && h[f].profile == 0 ==> request == Some(Resume))
      && (forall f: nat :: FirstRegistration(h, f) && h[f].profile != 0 ==>
            request == Some(if c.profile == 2 then Dispatch else Selector))
  }

  lemma RequestIsRight(h: History, c: Call)
    ensures RightRequest(h, c, PatchRequest(h, c))
  {
    forall f: nat | FirstRegistration(h, f) ensures forall i: nat :: FirstRegistration(h, i) ==> i == f {
      OneFirst(h, f);
    }
  }

  lemma IdentityFromLeaves(h: History)
    ensures IdentityOf(h) == Process <==> exists i :: 0 <= i < |h| && h[i].leaf == 0x6969_6969
  {
  }

  /** A leaf passed on to the native CPUID changes no route. */
  lemma NativeChangesNoRoute(h: History, c: Call, number: nat, r10: int, rcx: nat)
    requires !Consumes(h, c)
    ensures RouteSpec(h + [c], number, r10, rcx) == RouteSpec(h, number, r10, rcx)
  {
    Append(h, c);
    AppendConvention(h, c);
  }

  /** A consumed handler leaf is the latest accepted one; the two leaves that route nothing are always
      and never consumed; no foreign leaf is. */
  lemma ConsumedLeaves(h: History, c: Call)
    ensures c.leaf == 0x336933 && Consumes(h, c) ==> LatestAccepted(h + [c], |h|)
    ensures c.leaf == 0x336933 ==> (Consumes(h, c) <==> !Registered(h) || DualActive(h) || c.patchOk)
    ensures c.leaf == 0x336967 ==> Consumes(h, c)
    ensures c.leaf == 0x693369 ==> !Consumes(h, c)
    ensures c.leaf == 0x1337 ==> (Consumes(h, c) <==> Registered(h) && c.patchOk)
    ensures c.leaf == 0x6969_6969 ==> (Consumes(h, c) <==> !Registered(h) || DualActive(h))
    ensures c.leaf !in {0x6969_6969, 0x336933, 0x336967, 0x336943, 0x336934, 0x336944, 0x1337} ==> !Consumes(h, c)
  {
    assert (h + [c])[..|h|] == h;
  }
}


module ReflexObject {
  import opened Common
  import opened SyscallRoute
  import opened PatchWords
  import opened ControlHistory

  datatype Action = Native | Consumed

  datatype Routing =
    | Unregistered | ResumeTarget | DualDispatching
    | RegisteringResumeTarget | RegisteringDualDispatch | PromotingDualDispatch

  class ReflexState {
    var routing: Routing
    var identity: Identity
    var targetPid: nat
    var convention: Convention
    var resumeTarget: nat
    var systemTarget: nat
    var systemId: nat
    var attributesTarget: nat
    var attributesId: nat
    ghost var history: History

    ghost function Payload(leaf: nat, missing: nat): nat
      reads this
    {
      var p := LastPayload(history, leaf);
      if p.Some? then p.value else missing
    }

    /** Between calls every word is what the history says it is. */
    ghost predicate Valid()
      reads this
    {
      && routing == (if DualActive(history) then DualDispatching
                     else if Registered(history) then ResumeTarget else Unregistered)
      && identity == IdentityOf(history)
      && targetPid == LastPid(history)
      && convention == ConventionOf(history)
      && (DualActive(history) ==> systemTarget == LastHandler(history))
      && (!DualActive(history) ==> resumeTarget == LastHandler(history) && systemTarget == 0)
      && systemId == Low32(Payload(REGISTER_SYSTEM_SYSCALL_ID, U32_MAX))
      && attributesId == Low32(Payload(REGISTER_ATTRIBUTES_SYSCALL_ID, U32_MAX))
      && attributesTarget == Payload(REGISTER_ATTRIBUTES_HANDLER, 0)
    }

    constructor ()
      ensures Valid() && history == []
    {
      routing, identity, convention := Unregistered, Unobserved, ResumeReplay;
      targetPid, resumeTarget := 0, 0;
      systemTarget, systemId, attributesTarget, attributesId := 0, U32_MAX, 0, U32_MAX;
      history := [];
    }

    /** With no other thread the routing word is never transitional, so the first load decides. */
    method ActivateDualDispatch()
      requires routing.Unregistered? || routing.ResumeTarget? || routing.DualDispatching?
      modifies `routing, `convention, `systemTarget
      ensures routing == DualDispatching
      ensures old(routing).DualDispatching? ==> convention == old(convention) && systemTarget == old(systemTarget)
      ensures !old(routing).DualDispatching? ==>
                && convention == DualDispatch
                && systemTarget == if old(systemTarget) == 0 then resumeTarget else old(systemTarget)
    {
      match routing {
        case DualDispatching => return;
        case Unregistered => routing := RegisteringDualDispatch;
        case ResumeTarget => routing := PromotingDualDispatch;
      }
      var target := resumeTarget;
      if systemTarget == 0 {
        systemTarget := target;
      }
      convention := DualDispatch;
      routing := DualDispatching;
    }

    method RegisterResumeTarget(target: nat, profile: int, patchOk: bool)
      returns (accepted: bool, request: Option<Recipe>)
      requires routing.Unregistered? || routing.ResumeTarget? || routing.DualDispatching?
      modifies `routing, `convention, `resumeTarget, `systemTarget
      ensures accepted == (!old(routing).ResumeTarget? || patchOk)
      ensures request == if old(routing).ResumeTarget? then Some(RecipeFor(old(convention), profile)) else None
      ensures routing == if old(routing).DualDispatching? then DualDispatching else ResumeTarget
      ensures systemTarget == if old(routing).DualDispatching? then target else old(systemTarget)
      ensures resumeTarget == if !old(routing).DualDispatching? && accepted then target else old(resumeTarget)
      ensures convention == if old(routing).Unregistered? && profile != 0 then SelectorDispatch else old(convention)
    {
      request := None;
      match routing {
        case DualDispatching =>
          systemTarget := target;
          return true, None;
        case ResumeTarget =>
          request := Some(RecipeFor(convention, profile));
          if !patchOk {
            return false, request;
          }
          resumeTarget := target;
          return true, request;
        case Unregistered => routing := RegisteringResumeTarget;
      }
      resumeTarget := target;
      if profile != 0 {
        convention := SelectorDispatch;
      }
      routing := ResumeTarget;
      accepted := true;
    }

    /** Handle one control leaf; `request` is the KUSER patch the host was asked for. */
    method HandleCpuid(c: Call) returns (action: Action, request: Option<Recipe>)
      requires Valid()
      modifies this
      ensures Valid() && history == old(history) + [c]
      ensures action == if Consumes(old(history), c) then Consumed else Native
      ensures request == PatchRequest(old(history), c)
      ensures RightRequest(old(history), c, request)
      ensures identity == Process <==> exists i :: 0 <= i < |history| && history[i].leaf == 0x6969_6969
      ensures forall i: nat :: LatestPid(history, i) ==> targetPid == history[i].rdx
    {
      RequestIsRight(history, c);
      LastPidIs(history + [c]);
      IdentityFromLeaves(history + [c]);
      hide ConventionOf, DualActive, Registered, Received, RightRequest, LatestPid;
      Append(history, c);
      AppendConvention(history, c);
      history := history + [c];
      request := None;
      if c.leaf == ARM_TARGET_CR3 {
        identity := Process;
        if routing == ResumeTarget {
          return Native, None;
        }
      } else if c.leaf == CLIENT_SESSION_MARKER {
        return Native, None;
      } else if c.leaf == REGISTER_RESUME_HANDLER {
        if identity == Unobserved {
          identity := DebugRegisterThread;
        }
        var accepted;
        accepted, request := RegisterResumeTarget(c.rcx, c.profile, c.patchOk);
        if !accepted {
          return Native, request;
        }
      } else if c.leaf == SET_TIME {
      } else if c.leaf == REGISTER_TARGET_PID {
        if routing == Unregistered {
          return Native, None;
        }
        targetPid := c.rdx;
        request := Some(RecipeFor(convention, c.profile));
        if !c.patchOk {
          return Native, request;
        }
      } else if IsDualLeaf(c.leaf) {
        ActivateDualDispatch();
        if c.leaf == REGISTER_SYSTEM_SYSCALL_ID {
          systemId := Low32(c.rcx);
        } else if c.leaf == REGISTER_ATTRIBUTES_HANDLER {
          attributesTarget := c.rcx;
        } else {
          attributesId := Low32(c.rcx);
        }
      } else {
        return Native, None;
      }
      action := Consumed;
    }

    method RouteSyscall(number: nat, r10: int, rcx: nat) returns (route: Option<Route>)
      requires Valid()
      ensures route == RouteSpec(history, number, r10, rcx)
    {
      if routing == Unregistered || routing == RegisteringDualDispatch {
        return None;
      }
      var selected, raxIsResume := 0, false;
      match convention {
        case ResumeReplay =>
          selected, raxIsResume := resumeTarget, true;
        case SelectorDispatch =>
          if (number != SELECTOR_A && number != SELECTOR_B) || rcx > USER_RCX_MAX {
            return None;
          }
          selected := resumeTarget;
        case DualDispatch =>
          if number == DISPATCH_BYPASS_SYSCALL {
            return None;
          }
          if Low32(number) == systemId {
            if r10 != 0 || rcx > USER_RCX_MAX {
              return None;
            }
            selected := systemTarget;
          } else if Low32(number) == attributesId && rcx <= USER_RCX_MAX {
            selected := attributesTarget;
          } else {
            return None;
          }
      }
      if selected == 0 {
        return None;
      }
      return Some(Route(selected, raxIsResume));
    }
  }
}

/** The patch requests a sequential control history makes, answered by the patch arbiter. */
module PatchSession {
  import opened Common
  import opened PatchWords
  import opened ControlHistory

  /** Whether a request got past the page guard to `patch`, and how `apply` then went. */
  datatype Attempt = Attempt(invoked: bool, applyOk: bool)

  /** The patch word after the first `n` leaves. */
  ghost function WordAfter(h: History, attempts: seq<Attempt>, n: nat): nat
    requires n <= |h| == |attempts|
  {
    if n == 0 then UNAPPLIED
    else
      var word, request := WordAfter(h, attempts, n - 1), PatchRequest(h[..n - 1], h[n - 1]);
      if request.Some? && attempts[n - 1].invoked then PatchOutcome(word, request.value, attempts[n - 1].applyOk).1
      else word
  }

  lemma {:induction false} ResumeWordsUnderResumeConvention(h: History, attempts: seq<Attempt>, n: nat)
    requires n <= |h| == |attempts|
    ensures ValidWord(WordAfter(h, attempts, n)) && !IsApplying(WordAfter(h, attempts, n))
    ensures ConventionOf(h[..n]) == ResumeReplay ==>
        WordAfter(h, attempts, n) in {UNAPPLIED, RESUME_READY, RESUME_FAILED}
  {
    if n > 0 {
      ResumeWordsUnderResumeConvention(h, attempts, n - 1);
      assert h[..n] == h[..n - 1] + [h[n - 1]];
      Append(h[..n - 1], h[n - 1]);
      AppendConvention(h[..n - 1], h[n - 1]);
    }
  }

  /** No patch a control history asks for is ever refused as a conflict. */
  lemma NoRequestConflicts(h: History, attempts: seq<Attempt>, n: nat, applyOk: bool)
    requires n < |h| == |attempts|
    requires PatchRequest(h[..n], h[n]).Some?
    ensures PatchOutcome(WordAfter(h, attempts, n), PatchRequest(h[..n], h[n]).value, applyOk).0 != Conflict
  {
    ResumeWordsUnderResumeConvention(h, attempts, n);
  }

  /** In a dual history a patch request that succeeds leaves the word at DISPATCH_READY. */
  lemma DualPatchesDispatch(h: History, attempts: seq<Attempt>, n: nat)
    requires n < |h| == |attempts| && DualActive(h[..n]) && attempts[n].invoked
    requires PatchRequest(h[..n], h[n]).Some?
    requires PatchOutcome(WordAfter(h, attempts, n), PatchRequest(h[..n], h[n]).value, attempts[n].applyOk).0 == Applied
    ensures WordAfter(h, attempts, n + 1) == 5
  {
    RequestIsRight(h[..n], h[n]);
  }
}
