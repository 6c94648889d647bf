/**
 The SIGSYS boundary as one thread sees it: `Trapped` is the interrupted thread's register frame
 together with its live markers, and `Redirect` the handler's decision.
 */
module RedirectSpec {
  import opened Common
  import opened SyscallRoute
  import opened MarkerSpec

  const SYS_SECCOMP: int := 1
  const SYS_USER_DISPATCH: int := 2
  const SYSCALL_BYPASS_MAGIC: nat := 0x1337_1337_1337_1337
  const STATUS_BUFFER_TOO_SMALL: nat := 0xc000_0023
  const TWO32: nat := 0x1_0000_0000
  const TWO64: nat := 0x1_0000_0000_0000_0000

  /** 64-bit general registers; 128-bit vector registers as little-endian numbers. */
  datatype Regs = Regs(rip: nat, rsp: nat, rax: nat, rcx: nat, r11: nat, eflags: nat, xmm4: nat, xmm5: nat)

  /** The answers the handler gets from outside: whether this is the registered target process, the
      selected route, whether the bypassed call is completed locally, and whether the two bytes at
      RIP are a `syscall` instruction. */
  datatype Host = Host(registered: bool, route: Option<Route>, completes: bool, syscallAtRip: bool)

  datatype Outcome = Outcome(handled: bool, regs: Regs, marks: Marks)

  function Frame(regs: Regs): Context { Context(regs.xmm4, regs.xmm5, regs.r11, regs.eflags) }

  predicate Accepted(present: bool, code: int) { present && (code == SYS_SECCOMP || code == SYS_USER_DISPATCH) }

  predicate IsBypass(regs: Regs) { regs.xmm5 % TWO64 == SYSCALL_BYPASS_MAGIC }

  /** The trap is the first one of an armed marker. */
  predicate FirstTrap(regs: Regs, marks: Marks) { Has(marks, regs.rsp, regs.rip) && marks[regs.rsp].routed.None? }

  /** The trap is the second one: Reflex replays the call. */
  predicate SecondTrap(regs: Regs, marks: Marks) { Has(marks, regs.rsp, regs.rip) && marks[regs.rsp].routed.Some? }

  predicate Redirects(regs: Regs, marks: Marks, host: Host) {
    && !SecondTrap(regs, marks) && !IsBypass(regs)
    && (FirstTrap(regs, marks) || host.registered) && host.route.Some?
  }

  function Restored(regs: Regs, saved: Context): Regs {
    regs.(xmm4 := saved.xmm4, xmm5 := saved.xmm5, r11 := saved.r11, eflags := saved.eflags)
  }

  /** What Reflex's handler finds: the flags `syscall` stashed in R11, the service number in the low
      half-quadword of XMM4, the return point in RAX and its own address in RCX and RIP. */
  function Entered(regs: Regs, route: Route, host: Host): Regs {
    var resume := if route.raxIsResume && host.syscallAtRip then (regs.rip + 2) % TWO64 else regs.rcx;
    regs.(eflags := regs.r11, xmm4 := regs.xmm4 / TWO32 * TWO32 + regs.rax % TWO32,
          rax := resume, rcx := route.target, rip := route.target)
  }

  function Decision(present: bool, code: int, host: Host, regs: Regs, marks: Marks): Outcome {
    if !Accepted(present, code) then Outcome(false, regs, marks)
    else if Redirects(regs, marks, host) then
      Outcome(true, Entered(regs, host.route.value, host),
              if FirstTrap(regs, marks) then marks[regs.rsp := Mark(regs.rip, Some(Frame(regs)))] else marks)
    else
      var left := if Has(marks, regs.rsp, regs.rip) then marks - {regs.rsp} else marks;
      if SecondTrap(regs, marks) then Outcome(false, Restored(regs, marks[regs.rsp].routed.value), left)
      else if IsBypass(regs) then
        if code == SYS_USER_DISPATCH && host.completes
        then Outcome(true, regs.(xmm5 := 0, rax := STATUS_BUFFER_TOO_SMALL), left)
        else Outcome(false, regs.(xmm5 := 0), left)
      else Outcome(false, regs, left)
  }

  /** A marker for the trapped call is left behind only when the call went to Reflex on its first
      trap; replayed, bypassed and declined calls leave none, and no other marker changes. */
  lemma NoMarkerLingers(present: bool, code: int, host: Host, regs: Regs, marks: Marks)
    requires Accepted(present, code)
    ensures var out := Decision(present, code, host, regs, marks);
            && (Has(out.marks, regs.rsp, regs.rip) <==> FirstTrap(regs, marks) && !IsBypass(regs) && host.route.Some?)
            && (Has(out.marks, regs.rsp, regs.rip) ==> out.handled && out.regs.rip == host.route.value.target)
            && (forall k :: k != regs.rsp ==>
                  (k in out.marks <==> k in marks) && (k in marks ==> out.marks[k] == marks[k]))
            && (!Has(marks, regs.rsp, regs.rip) ==> out.marks == marks)
  {
  }

  /** The first trap hands the call to Reflex, the second gives Wine back every register Reflex may
      have used, whatever happened to other markers in between, and no third trap finds it. */
  lemma TwoHops(code: int, host: Host, regs: Regs, marks: Marks, code2: int, host2: Host, regs2: Regs, marks2: Marks,
                code3: int, host3: Host, regs3: Regs)
    requires Accepted(true, code) && Accepted(true, code2) && Accepted(true, code3)
    requires FirstTrap(regs, marks) && Redirects(regs, marks, host)
    requires regs2.rsp == regs3.rsp == regs.rsp && regs2.rip == regs3.rip == regs.rip
    requires var first := Decision(true, code, host, regs, marks);
             regs.rsp in marks2 && marks2[regs.rsp] == first.marks[regs.rsp]
    ensures var second := Decision(true, code2, host2, regs2, marks2);
            && !second.handled
            && second.regs == regs2.(xmm4 := regs.xmm4, xmm5 := regs.xmm5, r11 := regs.r11, eflags := regs.eflags)
            && !Has(second.marks, regs.rsp, regs.rip)
            && Decision(true, code3, host3, regs3, second.marks).marks == second.marks
  {
    var second := Decision(true, code2, host2, regs2, marks2);
    assert !Has(second.marks, regs3.rsp, regs3.rip);
  }

  /** In marker terms a trap is one consume, followed by a cancel exactly when a routed call does
      not go to Reflex after all. */
  lemma TrapIsJobs(code: int, host: Host, regs: Regs, marks: Marks) returns (result: Result, between: Marks)
    requires Accepted(true, code)
    ensures Allowed(Consume(regs.rsp, regs.rip, Frame(regs)), marks, result, between)
    ensures var out := Decision(true, code, host, regs, marks);
            if result == Result.Route && !Redirects(regs, marks, host)
            then Allowed(Cancel(regs.rsp, regs.rip), between, Nothing, out.marks)
            else out.marks == between
  {
    if FirstTrap(regs, marks) {
      result, between := Result.Route, marks[regs.rsp := Mark(regs.rip, Some(Frame(regs)))];
      assert between - {regs.rsp} == marks - {regs.rsp};
    } else if SecondTrap(regs, marks) {
      result, between := Replay(marks[regs.rsp].routed.value), marks - {regs.rsp};
    } else {
      result, between := Nothing, marks;
    }
  }

  /** Writing the low four bytes of XMM4 leaves the others. */
  lemma LowBytesReplaced(xmm: nat, low: nat)
    requires low < TWO32
    ensures (xmm / TWO32 * TWO32 + low) % TWO32 == low && (xmm / TWO32 * TWO32 + low) / TWO32 == xmm / TWO32
  {
  }

  /** What Reflex's handler is entered with. */
  predicate EntersReflex(was: Regs, now: Regs, target: nat) {
    && now.rip == target && now.rcx == target && now.eflags == was.r11
    && now.rsp == was.rsp && now.r11 == was.r11 && now.xmm5 == was.xmm5
    && now.xmm4 % TWO32 == was.rax % TWO32 && now.xmm4 / TWO32 == was.xmm4 / TWO32
  }

  /** A bypassed call loses its bypass mark; completed locally, it also gets its status. */
  predicate Bypassed(was: Regs, now: Regs, completed: bool) {
    && now.xmm5 == 0 && now.xmm4 == was.xmm4 && now.rip == was.rip && now.rsp == was.rsp && now.rcx == was.rcx
    && now.r11 == was.r11 && now.eflags == was.eflags && now.rax == if completed then 0xc000_0023 else was.rax
  }

  lemma EntryFrame(code: int, host: Host, regs: Regs, marks: Marks)
    requires Accepted(true, code)
    ensures var out := Decision(true, code, host, regs, marks);
            && (Redirects(regs, marks, host) ==>
                  out.handled && EntersReflex(regs, out.regs, host.route.value.target)
                  && out.regs.rax == if host.route.value.raxIsResume && host.syscallAtRip then (regs.rip + 2) % TWO64
                                     else regs.rcx)
            && (!SecondTrap(regs, marks) && IsBypass(regs) ==>
                  && out.handled == (code == 2 && host.completes)
                  && Bypassed(regs, out.regs, out.handled))
  {
    LowBytesReplaced(regs.xmm4, regs.rax % TWO32);
  }

  /** Only a call with evidence goes to Reflex: a bridged one, or any of the registered process, with a
      route selected; every other call reaches Wine with its registers as they were. */
  lemma OnlyEvidencedCallsRedirect(present: bool, code: int, host: Host, regs: Regs, marks: Marks)
    ensures var out := Decision(present, code, host, regs, marks);
            && (!present || (code != 1 && code != 2) ==> out == Outcome(false, regs, marks))
            && (Accepted(present, code) && regs.xmm5 % 0x1_0000_0000_0000_0000 != 0x1337_1337_1337_1337 ==>
                  && (out.handled <==>
                        && host.route.Some?
                        && if Has(marks, regs.rsp, regs.rip) then marks[regs.rsp].routed.None? else host.registered)
                  && (!out.handled && !SecondTrap(regs, marks) ==> out.regs == regs))
  {
  }

  /** On a resume route a bridged call returns right behind itself: the marker it leaves is the one for
      the `syscall` two bytes before the return point.  Any other redirect hands over the trapped RCX. */
  lemma ReturnsBehindItsCall(code: int, host: Host, regs: Regs, marks: Marks)
    requires Accepted(true, code) && FirstTrap(regs, marks) && Redirects(regs, marks, host) && regs.rip < TWO64
    ensures var out := Decision(true, code, host, regs, marks);
            if host.route.value.raxIsResume && host.syscallAtRip
            then Has(out.marks, regs.rsp, (out.regs.rax + TWO64 - 2) % TWO64)
            else out.regs.rax == regs.rcx
  {
    EntryFrame(code, host, regs, marks);
    var rax := (regs.rip + 2) % TWO64;
    assert (rax + TWO64 - 2) % TWO64 == regs.rip;
  }
}

module RedirectObject {
  import opened Common
  import opened SyscallRoute
  import opened MarkerSpec
  import opened RedirectSpec

  class Trapped {
    var regs: Regs
    var marks: Marks

    constructor (regs: Regs, marks: Marks)
      ensures this.regs == regs && this.marks == marks
    {
      this.regs, this.marks := regs, marks;
    }

    method ConsumeMarker() returns (result: Result)
      modifies this`marks
      ensures Allowed(Consume(regs.rsp, regs.rip, Frame(regs)), old(marks), result, marks)
      ensures marks - {regs.rsp} == old(marks) - {regs.rsp}
    {
      if !Has(marks, regs.rsp, regs.rip) {
        return Nothing;
      }
      var mark := marks[regs.rsp];
      if mark.routed.None? {
        marks := marks[regs.rsp := mark.(routed := Some(Frame(regs)))];
        return Result.Route;
      }
      marks := marks - {regs.rsp};
      return Replay(mark.routed.value);
    }

    method CancelMarker()
      modifies this`marks
      ensures Allowed(Cancel(regs.rsp, regs.rip), old(marks), Nothing, marks)
    {
      if Has(marks, regs.rsp, regs.rip) {
        marks := marks - {regs.rsp};
      }
    }

    method Redirect(present: bool, code: int, host: Host) returns (handled: bool)
      modifies this
      ensures Outcome(handled, regs, marks) == Decision(present, code, host, old(regs), old(marks))
      ensures Accepted(present, code) && Redirects(old(regs), old(marks), host) ==>
                && handled && EntersReflex(old(regs), regs, host.route.value.target)
                && regs.rax == if host.route.value.raxIsResume && host.syscallAtRip then (old(regs.rip) + 2) % TWO64
                               else old(regs.rcx)
      ensures Accepted(present, code) && !SecondTrap(old(regs), old(marks))
              && old(regs.xmm5) % 0x1_0000_0000_0000_0000 == 0x1337_1337_1337_1337 ==>
                handled == (code == 2 && host.completes) && Bypassed(old(regs), regs, handled)
    {
      if !present || (code != SYS_SECCOMP && code != SYS_USER_DISPATCH) {
        return false;
      }
      EntryFrame(code, host, regs, marks);
      hide EntersReflex, Bypassed;
      var bridged := ConsumeMarker();
      if bridged.Replay? {
        var saved := bridged.context;
        regs := regs.(xmm4 := saved.xmm4, xmm5 := saved.xmm5);
        regs := regs.(r11 := saved.r11);
        regs := regs.(eflags := saved.eflags);
        return false;
      }
      if IsBypass(regs) {
        if bridged == Result.Route {
          CancelMarker();
        }
        regs := regs.(xmm5 := 0);
        if code == SYS_USER_DISPATCH && host.completes {
          regs := regs.(rax := STATUS_BUFFER_TOO_SMALL);
          return true;
        }
        return false;
      }
      if bridged != Result.Route && !host.registered {
        return false;
      }
      if host.route.None? {
        if bridged == Result.Route {
          CancelMarker();
        }
        return false;
      }
      var route := host.route.value;
      regs := regs.(eflags := regs.r11);
      var selector := regs.rax % TWO32;
      regs := regs.(xmm4 := regs.xmm4 / TWO32 * TWO32 + selector);
      var rax := regs.rcx;
      if route.raxIsResume && host.syscallAtRip {
        rax := (regs.rip + 2) % TWO64;
      }
      regs := regs.(rax := rax);
      regs := regs.(rcx := route.target);
      regs := regs.(rip := route.target);
      return true;
    }
  }
}

/** Whole sessions of one thread: dispatcher-bridge calls and traps in any order. */
module TrapSessions {
  import opened Common
  import opened MarkerSpec
  import opened RedirectSpec

  /** `full` when a bridge call that wants to arm has found every slot of the table taken. */
  datatype Act = Bridge(stack: nat, arms: bool, rip: nat, full: bool) | Trap(code: int, host: Host, regs: Regs)

  function Next(act: Act, marks: Marks): Marks {
    match act
    case Bridge(stack, arms, rip, full) =>
      if arms && !full then Above(marks, stack)[stack := Mark(rip, None)] else Above(marks, stack)
    case Trap(code, host, regs) => Decision(true, code, host, regs, marks).marks
  }

  function MarksAfter(acts: seq<Act>): Marks {
    if acts == [] then map[] else Next(acts[|acts| - 1], MarksAfter(acts[..|acts| - 1]))
  }

  /** A bridge call does to the markers what the marker table lets its thread do. */
  lemma BridgeIsJob(act: Act, marks: Marks)
    requires act.Bridge?
    ensures Allowed(Dispatch(act.stack, act.arms, act.rip), marks,
                    if !act.arms then Declined else if act.full then Full else Armed, Next(act, marks))
  {
  }

  predicate Concerns(act: Act, stack: nat, rip: nat) {
    match act
    case Bridge(s, _, _, _) => s >= stack
    case Trap(code, _, regs) => Accepted(true, code) && regs.rsp == stack && regs.rip == rip
  }

  /** The act is a bridged call's first trap and goes to Reflex. */
  predicate SentToReflex(act: Act, marks: Marks) {
    act.Trap? && Accepted(true, act.code) && FirstTrap(act.regs, marks) && Redirects(act.regs, marks, act.host)
  }

  /** The call sent to Reflex by act `a` has not come back. */
  predicate Outstanding(acts: seq<Act>, a: nat, stack: nat, rip: nat) {
    && a < |acts| && SentToReflex(acts[a], MarksAfter(acts[..a]))
    && acts[a].regs.rsp == stack && acts[a].regs.rip == rip
    && forall x :: a < x < |acts| ==> !Concerns(acts[x], stack, rip)
  }

  ghost predicate Awaited(acts: seq<Act>, stack: nat, rip: nat, saved: Context) {
    exists a: nat :: Outstanding(acts, a, stack, rip) && Frame(acts[a].regs) == saved
  }

  lemma AwaitedStep(acts: seq<Act>, stack: nat, rip: nat, saved: Context)
    requires acts != []
    ensures var last, before := acts[|acts| - 1], acts[..|acts| - 1];
            Awaited(acts, stack, rip, saved) <==>
              if Concerns(last, stack, rip)
              then SentToReflex(last, MarksAfter(before)) && last.regs.rsp == stack && last.regs.rip == rip
                  && Frame(last.regs) == saved
              else Awaited(before, stack, rip, saved)
  {
    hide MarksAfter, FirstTrap, Redirects;
    var n := |acts| - 1;
    var last, before := acts[n], acts[..n];
    forall a: nat | a < n
      ensures Outstanding(acts, a, stack, rip) <==> Outstanding(before, a, stack, rip) && !Concerns(last, stack, rip)
    {
      assert acts[..a] == before[..a] && acts[a] == before[a];
      assert forall x :: a < x < n ==> acts[x] == before[x];
    }
    assert Outstanding(acts, n, stack, rip) <==>
           SentToReflex(last, MarksAfter(before)) && last.regs.rsp == stack && last.regs.rip == rip;
    SentConcerns(last, MarksAfter(before));
  }

  lemma SentConcerns(act: Act, marks: Marks)
    ensures SentToReflex(act, marks) ==> act.Trap? && Concerns(act, act.regs.rsp, act.regs.rip)
  {
  }

  /** One act sends a marker into its routed phase, ends it, or leaves it as it was. */
  lemma NextRouted(act: Act, marks: Marks, stack: nat, rip: nat, saved: Context)
    ensures var marks', routed := Next(act, marks), Mark(rip, Some(saved));
            stack in marks' && marks'[stack] == routed <==>
              if Concerns(act, stack, rip)
              then SentToReflex(act, marks) && act.regs.rsp == stack && act.regs.rip == rip && Frame(act.regs) == saved
              else stack in marks && marks[stack] == routed
  {
  }

  lemma {:induction false} RoutedMarksAreAwaited(acts: seq<Act>, stack: nat, rip: nat, saved: Context)
    ensures var marks := MarksAfter(acts);
            stack in marks && marks[stack] == Mark(rip, Some(saved)) <==> Awaited(acts, stack, rip, saved)
  {
    hide Next, Concerns, FirstTrap, Redirects;
    if acts != [] {
      RoutedMarksAreAwaited(acts[..|acts| - 1], stack, rip, saved);
      AwaitedStep(acts, stack, rip, saved);
      NextRouted(acts[|acts| - 1], MarksAfter(acts[..|acts| - 1]), stack, rip, saved);
    }
  }

  /** In every session a trap is treated as a replay exactly when a call with the same stack and
      address went to Reflex and has not come back, and then it gets that call's registers back. */
  lemma ReplayGivesBackItsCall(acts: seq<Act>, code: int, host: Host, regs: Regs)
    requires Accepted(true, code)
    ensures var marks := MarksAfter(acts);
            && (SecondTrap(regs, marks) <==> exists a: nat :: Outstanding(acts, a, regs.rsp, regs.rip))
            && forall a: nat :: Outstanding(acts, a, regs.rsp, regs.rip) ==>
                 Decision(true, code, host, regs, marks).regs == Restored(regs, Frame(acts[a].regs))
  {
    var marks, k, r := MarksAfter(acts), regs.rsp, regs.rip;
    if SecondTrap(regs, marks) {
      RoutedMarksAreAwaited(acts, k, r, marks[k].routed.value);
    }
    forall a: nat | Outstanding(acts, a, k, r)
      ensures SecondTrap(regs, marks) && marks[k].routed == Some(Frame(acts[a].regs))
    {
      assert Awaited(acts, k, r, Frame(acts[a].regs));
      RoutedMarksAreAwaited(acts, k, r, Frame(acts[a].regs));
    }
  }
}
