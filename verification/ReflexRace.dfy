/**
 What promotion to dual dispatch carries over when leaves race.  Sequentially it is the last accepted
 handler; under interleaving a handler stored on the resume path after the promoting thread has read
 the resume word is lost.  That can happen exactly when, at the read, another thread is already past
 the routing check of the resume path with a different handler.
 */
module ReflexRace {
  import opened Common
  import opened ControlHistory
  import opened ReflexObject
  import opened ReflexRuns

  /** Program counters at which the promoting thread has settled the system handler. */
  predicate Settled(pc: Pc) { pc.ActStoreConvention? || pc.ActStoreRouting? }

  /** Program counters between reading the resume word and publishing dual dispatch. */
  predicate Carrying(pc: Pc) { pc.ActReadSystem? || pc.ActStoreSystem? || Settled(pc) }

  /** Before a promotion settles it, there is no system handler. */
  predicate SystemUnset(s: State) {
    s.shared.routing != DualDispatching && (forall t :: t in s.threads ==> !Settled(s.threads[t].pc)) ==>
      s.shared.systemTarget == 0
  }

  /** The handler that thread's promotion is going to publish. */
  function Payload(sh: Shared, pc: Pc): nat
    requires Carrying(pc)
  {
    match pc
    case ActReadSystem(read) => read
    case ActStoreSystem(carried) => carried
    case _ => sh.systemTarget
  }

  /** A thread's step settles the system handler only from one it has read, or leaves it alone. */
  lemma SystemStep(sh: Shared, th: Thread, choice: bool)
    requires Fits(th) && !Finished(th.pc)
    ensures var (sh', th') := StepOf(sh, th, choice);
            && th'.job == th.job
            && (Settled(th'.pc) && !Settled(th.pc) ==> th.pc.ActReadSystem? || th.pc.ActStoreSystem?)
            && (Settled(th.pc) && !Settled(th'.pc) ==> sh'.routing == DualDispatching)
            && (Settled(th.pc) && Carrying(th'.pc) ==> Settled(th'.pc))
            && (sh'.systemTarget != sh.systemTarget ==> th.pc.RegStoreSystem? || th.pc.ActStoreSystem?)
            && (th.pc.ActStoreSystem? ==> Settled(th'.pc) && sh'.systemTarget == th.pc.carried)
            && (th.pc.ActReadSystem? ==>
                  Carrying(th'.pc) && (sh.systemTarget == 0 ==> th'.pc == ActStoreSystem(th.pc.read)))
            && (th.pc.ActReadResume? ==> th'.pc == ActReadSystem(sh.resumeTarget))
            && (Carrying(th'.pc) ==> Carrying(th.pc) || th.pc.ActReadResume?)
  {
    hide RouteTo, Low32;
  }

  /** What the invariant says about the thread about to step. */
  lemma StepFacts(s: State, e: Event, seen: Seen)
    requires Inv(s, seen) && Enabled(s, e) && e.Step?
    ensures s.threads[e.t].pc.RegStoreSystem? ==> s.shared.routing == DualDispatching
    ensures s.threads[e.t].pc.ActStoreSystem? ==> Settled(After(s, e).threads[e.t].pc)
    ensures s.shared.routing == DualDispatching ==> After(s, e).shared.routing == DualDispatching
  {
    hide StepOf, SharedInv, OwnersInv, RouteInv, Includes;
    assert ThreadInv(s.shared, s.threads[e.t], seen);
    SystemStep(s.shared, s.threads[e.t], e.choice);
    StepKeepsInv(s, e, seen);
  }

  lemma SystemUnsetKept(s: State, e: Event, seen: Seen)
    requires Inv(s, seen) && Enabled(s, e) && SystemUnset(s)
    ensures SystemUnset(After(s, e))
  {
    hide StepOf, Inv, Fits;
    var s' := After(s, e);
    if e.Step? {
      SystemStep(s.shared, s.threads[e.t], e.choice);
      StepFacts(s, e, seen);
    }
    if s'.shared.routing != DualDispatching && forall t :: t in s'.threads ==> !Settled(s'.threads[t].pc) {
      forall t | t in s.threads ensures !Settled(s.threads[t].pc) {
        assert t in s'.threads;
      }
    }
  }

  lemma {:induction false} SystemUnsetAlways(states: seq<State>, events: seq<Event>, n: nat)
    requires IsRun(states, events) && n <= |events|
    ensures SystemUnset(states[n])
  {
    hide Inv, After, Enabled;
    if n == 0 {
      assert states[0].shared.systemTarget == 0;
    } else {
      SystemUnsetAlways(states, events, n - 1);
      RunKeepsInv(states, events, n - 1);
      SystemUnsetKept(states[n - 1], events[n - 1], SeenBy(events, n - 1));
    }
  }

  /** The step just made by `e`, seen by a promotion in progress on thread `t`. */
  lemma CarryStep(s: State, e: Event, seen: Seen, t: nat)
    requires Inv(s, seen) && Enabled(s, e) && SystemUnset(s)
    requires var s' := After(s, e); t in s'.threads && Carrying(s'.threads[t].pc)
    ensures t in s.threads
    ensures var s' := After(s, e); var pc, pc' := s.threads[t].pc, s'.threads[t].pc;
            || (e.Step? && e.t == t && pc == ActReadResume && Payload(s'.shared, pc') == s.shared.resumeTarget)
            || (Carrying(pc) && Payload(s'.shared, pc') == Payload(s.shared, pc))
  {
    hide StepOf, SharedInv, ThreadInv, Fits;
    var s' := After(s, e);
    if e.Step? {
      var th := s.threads[e.t];
      SystemStep(s.shared, th, e.choice);
      StepFacts(s, e, seen);
      OnlyOneCarries(s, t, e.t);
      if th.pc.ActReadSystem? {
        forall u | u in s.threads ensures !Settled(s.threads[u].pc) {
          OnlyOneCarries(s, e.t, u);
        }
      }
    }
  }

  lemma OnlyOneCarries(s: State, t: nat, u: nat)
    requires OwnersInv(s.shared, s.threads) && t in s.threads && u in s.threads
    ensures Carrying(s.threads[t].pc) && Carrying(s.threads[u].pc) ==> t == u
    ensures Carrying(s.threads[t].pc) ==> s.shared.routing != DualDispatching
  {
    assert Carrying(s.threads[t].pc) ==> Owner(s.threads[t].pc);
    assert Carrying(s.threads[u].pc) ==> Owner(s.threads[u].pc);
  }

  /** What a promotion is about to publish as system handler is what the resume word held when its
      thread read it, at event `k`. */
  lemma {:induction false} PromotionCarriesWhatItRead(states: seq<State>, events: seq<Event>, n: nat, t: nat)
    returns (k: nat)
    requires IsRun(states, events) && n <= |events|
    requires t in states[n].threads && Carrying(states[n].threads[t].pc)
    ensures k < n && ReadsResume(states[k], events[k], t)
    ensures forall x :: k < x <= n ==> t in states[x].threads && Carrying(states[x].threads[t].pc)
    ensures Payload(states[n].shared, states[n].threads[t].pc) == states[k].shared.resumeTarget
  {
    hide Inv, After, Enabled, Payload;
    if n == 0 {
      assert false;
    } else {
      RunKeepsInv(states, events, n - 1);
      SystemUnsetAlways(states, events, n - 1);
      CarryStep(states[n - 1], events[n - 1], SeenBy(events, n - 1), t);
      if events[n - 1].t == t && states[n - 1].threads[t].pc == ActReadResume {
        k := n - 1;
      } else {
        k := PromotionCarriesWhatItRead(states, events, n - 1, t);
      }
    }
  }

  /** The promoting thread's read of the resume word. */
  predicate ReadsResume(s: State, e: Event, t: nat) {
    e.Step? && e.t == t && t in s.threads && s.threads[t].pc == ActReadResume
  }

  /** The step that makes dual dispatch visible. */
  predicate Publishes(s: State, e: Event, t: nat) {
    e.Step? && e.t == t && t in s.threads && s.threads[t].pc == ActStoreRouting
  }

  /** A handler leaf stores its argument on the resume path; it is then answered Consumed. */
  predicate StoresHandler(s: State, e: Event) {
    && e.Step? && e.t in s.threads && s.threads[e.t].job.Control?
    && (s.threads[e.t].pc == RegStoreTarget || s.threads[e.t].pc == RegStoreResume)
  }

  function Stored(s: State, e: Event): nat
    requires StoresHandler(s, e)
  {
    s.threads[e.t].job.argument
  }

  /** The handler the resume path accepted last among the first `n` events, 0 for none. */
  ghost function LastAccepted(states: seq<State>, events: seq<Event>, n: nat): nat
    requires n <= |events| < |states|
  {
    if n == 0 then 0
    else if StoresHandler(states[n - 1], events[n - 1]) then Stored(states[n - 1], events[n - 1])
    else LastAccepted(states, events, n - 1)
  }

  /** Event `j` is the latest handler store before event `n`. */
  predicate LatestStore(states: seq<State>, events: seq<Event>, j: nat, n: nat)
    requires n <= |events| < |states|
  {
    j < n && StoresHandler(states[j], events[j]) && forall x :: j < x < n ==> !StoresHandler(states[x], events[x])
  }

  lemma StoreStep(s: State, e: Event)
    requires Enabled(s, e)
    ensures After(s, e).shared.resumeTarget == if StoresHandler(s, e) then Stored(s, e) else s.shared.resumeTarget
  {
    hide RouteTo, Low32;
  }

  lemma {:induction false} ResumeWordIsLastAccepted(states: seq<State>, events: seq<Event>, n: nat)
    requires IsRun(states, events) && n <= |events|
    ensures states[n].shared.resumeTarget == LastAccepted(states, events, n)
  {
    hide After, Enabled, StoresHandler;
    if n > 0 {
      ResumeWordIsLastAccepted(states, events, n - 1);
      StoreStep(states[n - 1], events[n - 1]);
    }
  }

  lemma {:induction false} LatestStoreIsLastAccepted(states: seq<State>, events: seq<Event>, k: nat, n: nat)
    requires k <= n <= |events| < |states|
    ensures || LastAccepted(states, events, n) == LastAccepted(states, events, k)
            || exists j: nat :: k <= j && LatestStore(states, events, j, n)
    ensures forall j: nat :: LatestStore(states, events, j, n) ==>
              LastAccepted(states, events, n) == Stored(states[j], events[j])
    ensures (forall j :: k <= j < n ==> !StoresHandler(states[j], events[j])) ==>
              LastAccepted(states, events, n) == LastAccepted(states, events, k)
    decreases n
  {
    hide StoresHandler;
    if n > 0 {
      if StoresHandler(states[n - 1], events[n - 1]) {
        assert LatestStore(states, events, n - 1, n);
      } else {
        var m := n - 1;
        LatestStoreIsLastAccepted(states, events, if k < n then k else m, m);
        forall j: nat ensures LatestStore(states, events, j, n) <==> LatestStore(states, events, j, m) {
        }
      }
    }
  }

  /** When a promotion publishes, the system handler is the handler accepted last if and only if that
      handler was not stored after the promotion's read, or equals the one that was read. */
  lemma CarriedUnlessStoredAfterRead(states: seq<State>, events: seq<Event>, n: nat, t: nat) returns (k: nat)
    requires IsRun(states, events) && n < |events| && Publishes(states[n], events[n], t)
    ensures k < n && ReadsResume(states[k], events[k], t)
    ensures forall x :: k < x <= n ==> t in states[x].threads && Carrying(states[x].threads[t].pc)
    ensures states[n + 1].shared.routing == DualDispatching
    ensures states[n + 1].shared.systemTarget == LastAccepted(states, events, k)
    ensures states[n + 1].shared.systemTarget == LastAccepted(states, events, n + 1) <==>
            forall j: nat :: k < j && LatestStore(states, events, j, n) ==>
              Stored(states[j], events[j]) == LastAccepted(states, events, k)
  {
    k := PromotionCarriesWhatItRead(states, events, n, t);
    ResumeWordIsLastAccepted(states, events, k);
    LatestStoreIsLastAccepted(states, events, k, n);
  }

  /** A handler leaf with another handler than `v` that has passed the routing check of the resume path. */
  predicate Pending(th: Thread, v: nat) {
    th.job.Control? && th.job.argument != v && (th.pc == RegPatch || th.pc == RegStoreResume)
  }

  predicate NobodyPending(s: State, v: nat) { forall u :: u in s.threads ==> !Pending(s.threads[u], v) }

  /** The resume word holds `v` and nobody can still replace it. */
  predicate Frozen(s: State, v: nat) {
    && s.shared.resumeTarget == v && NobodyPending(s, v)
    && (Activating(s.shared) || s.shared.routing == DualDispatching)
  }

  lemma FrozenThread(sh: Shared, th: Thread, choice: bool, v: nat)
    requires Fits(th) && !Finished(th.pc) && !Pending(th, v)
    requires Activating(sh) || sh.routing == DualDispatching
    ensures !Pending(StepOf(sh, th, choice).1, v)
  {
    hide RouteTo, Low32;
  }

  lemma FrozenStep(s: State, e: Event, seen: Seen, v: nat)
    requires Inv(s, seen) && Enabled(s, e) && Frozen(s, v)
    ensures Frozen(After(s, e), v)
  {
    hide StepOf, SharedInv, RouteInv, OwnersInv;
    StoreStep(s, e);
    if e.Step? {
      var th := s.threads[e.t];
      FrozenThread(s.shared, th, e.choice, v);
      assert ThreadInv(s.shared, th, seen);
      StepKeepsInv(s, e, seen);
    }
  }

  /** If nobody is pending with another handler when the promoting thread reads, the resume word
      never changes again in the run. */
  lemma {:induction false} HandlerFrozen(states: seq<State>, events: seq<Event>, k: nat, n: nat, t: nat)
    requires IsRun(states, events) && k <= n <= |events|
    requires t in states[k].threads && states[k].threads[t].pc == ActReadResume
    requires NobodyPending(states[k], states[k].shared.resumeTarget)
    ensures Frozen(states[n], states[k].shared.resumeTarget)
  {
    hide Inv, After, Enabled, Frozen;
    if n == k {
      RunKeepsInv(states, events, k);
      FrozenStarts(states[k], t, SeenBy(events, k));
    } else {
      HandlerFrozen(states, events, k, n - 1, t);
      RunKeepsInv(states, events, n - 1);
      FrozenStep(states[n - 1], events[n - 1], SeenBy(events, n - 1), states[k].shared.resumeTarget);
    }
  }

  lemma FrozenStarts(s: State, t: nat, seen: Seen)
    requires Inv(s, seen) && t in s.threads && s.threads[t].pc == ActReadResume
    requires NobodyPending(s, s.shared.resumeTarget)
    ensures Frozen(s, s.shared.resumeTarget)
  {
    assert ThreadInv(s.shared, s.threads[t], seen);
  }

  predicate Extends(states': seq<State>, events': seq<Event>, states: seq<State>, events: seq<Event>) {
    && |states| <= |states'| && |events| <= |events'|
    && states'[..|states|] == states && events'[..|events|] == events
  }

  lemma Extend(states: seq<State>, events: seq<Event>, e: Event) returns (states': seq<State>, events': seq<Event>)
    requires IsRun(states, events) && Enabled(states[|events|], e)
    ensures IsRun(states', events') && Extends(states', events', states, events)
    ensures |events'| == |events| + 1 && events'[|events|] == e && states'[|events'|] == After(states[|events|], e)
  {
    hide Enabled, After;
    states', events' := states + [After(states[|events|], e)], events + [e];
    assert forall i :: 0 <= i < |states| ==> states'[i] == states[i];
    assert forall i :: 0 <= i < |events| ==> events'[i] == events[i];
  }

  lemma ThreadsFit(states: seq<State>, events: seq<Event>, t: nat)
    requires IsRun(states, events) && t in states[|events|].threads
    ensures Fits(states[|events|].threads[t])
  {
    RunKeepsInv(states, events, |events|);
  }

  /** Let thread `t` make one more step. */
  lemma Advance(states: seq<State>, events: seq<Event>, t: nat, choice: bool)
    returns (states': seq<State>, events': seq<Event>)
    requires IsRun(states, events) && t in states[|events|].threads && !Finished(states[|events|].threads[t].pc)
    ensures Fits(states[|events|].threads[t])
    ensures IsRun(states', events') && Extends(states', events', states, events)
    ensures |events'| == |events| + 1 && events'[|events|] == Step(t, choice)
    ensures var (sh', th') := StepOf(states[|events|].shared, states[|events|].threads[t], choice);
            states'[|events'|] == State(sh', states[|events|].threads[t := th'])
  {
    hide StepOf;
    ThreadsFit(states, events, t);
    states', events' := Extend(states, events, Step(t, choice));
  }

  /** No handler is stored from event `from` on. */
  predicate NoStoreSince(states: seq<State>, events: seq<Event>, from: nat)
    requires |states| == |events| + 1
  {
    forall x :: from <= x < |events| ==> !StoresHandler(states[x], events[x])
  }

  /** A pending handler leaf is accepted while the promotion stands still. */
  lemma PendingStores(states: seq<State>, events: seq<Event>, t: nat, u: nat, v: nat)
    returns (states': seq<State>, events': seq<Event>)
    requires IsRun(states, events) && t in states[|events|].threads && u in states[|events|].threads && t != u
    requires Pending(states[|events|].threads[u], v)
    ensures IsRun(states', events') && Extends(states', events', states, events) && |events'| > |events|
    ensures var j := |events'| - 1;
            && StoresHandler(states'[j], events'[j]) && events'[j].t == u && states'[j].threads[u].pc == RegStoreResume
            && Stored(states'[j], events'[j]) == states[|events|].threads[u].job.argument
    ensures var s, s' := states[|events|], states'[|events'|];
            && s'.shared == s.shared.(resumeTarget := s.threads[u].job.argument)
            && s'.threads == s.threads[u := s.threads[u].(pc := Done(Consumed))]
  {
    hide ActivateStep, RouteStep;
    var th := states[|events|].threads[u];
    states', events' := states, events;
    if th.pc == RegPatch {
      states', events' := Advance(states, events, u, true);
    }
    var s := states'[|events'|];
    assert s.shared == states[|events|].shared && s.threads[u] == th.(pc := RegStoreResume);
    var states'', events'' := Advance(states', events', u, true);
    ExtendsFurther(states'', events'', states', events', states, events);
    states', events' := states'', events'';
  }

  lemma ExtendsFurther(states2: seq<State>, events2: seq<Event>, states1: seq<State>, events1: seq<Event>,
                       states: seq<State>, events: seq<Event>)
    requires Extends(states2, events2, states1, events1) && Extends(states1, events1, states, events)
    ensures Extends(states2, events2, states, events)
  {
    assert states2[..|states|] == states1[..|states|];
    assert events2[..|events|] == events1[..|events|];
  }

  /** One step of the promoting thread between its read and the publication. */
  lemma PromotionStep(states: seq<State>, events: seq<Event>, t: nat)
    returns (states': seq<State>, events': seq<Event>)
    requires IsRun(states, events) && t in states[|events|].threads && Carrying(states[|events|].threads[t].pc)
    requires states[|events|].threads[t].pc.ActReadSystem? ==> states[|events|].shared.systemTarget == 0
    ensures IsRun(states', events') && Extends(states', events', states, events) && |events'| == |events| + 1
    ensures events'[|events|] == Step(t, false) && !StoresHandler(states'[|events|], events'[|events|])
    ensures var s, s' := states[|events|], states'[|events'|];
            && t in s'.threads && s'.threads == s.threads[t := s'.threads[t]]
            && s'.shared.resumeTarget == s.shared.resumeTarget
            && match s.threads[t].pc
               case ActReadSystem(read) => s'.threads[t].pc == ActStoreSystem(read) && s'.shared == s.shared
               case ActStoreSystem(carried) =>
                 s'.threads[t].pc == ActStoreConvention && s'.shared.systemTarget == carried
               case ActStoreConvention =>
                 s'.threads[t].pc == ActStoreRouting && s'.shared.systemTarget == s.shared.systemTarget
               case _ => s'.shared.routing == DualDispatching && s'.shared.systemTarget == s.shared.systemTarget
  {
    hide RouteStep;
    states', events' := Advance(states, events, t, false);
    assert states'[|events|] == states'[..|states|][|events|];
  }

  lemma NoStoreFurther(states': seq<State>, events': seq<Event>, states: seq<State>, events: seq<Event>, from: nat)
    requires Extends(states', events', states, events) && |states| == |events| + 1 && |states'| == |events'| + 1
    requires |events'| == |events| + 1 && NoStoreSince(states, events, from)
        && !StoresHandler(states'[|events|], events'[|events|])
    ensures NoStoreSince(states', events', from)
  {
    hide StoresHandler;
    forall x | from <= x < |events'| ensures !StoresHandler(states'[x], events'[x]) {
      if x < |events| {
        assert states'[x] == states'[..|states|][x] && events'[x] == events'[..|events|][x];
      }
    }
  }

  /** From its read on, the promotion can run to its publication with nobody interfering. */
  lemma {:induction false} PromotionFinishes(states: seq<State>, events: seq<Event>, t: nat, from: nat)
    returns (states': seq<State>, events': seq<Event>)
    requires IsRun(states, events) && t in states[|events|].threads && Carrying(states[|events|].threads[t].pc)
    requires states[|events|].threads[t].pc.ActReadSystem? ==> states[|events|].shared.systemTarget == 0
    requires NoStoreSince(states, events, from)
    ensures IsRun(states', events') && Extends(states', events', states, events) && |events'| > |events|
    ensures NoStoreSince(states', events', from)
    ensures var n := |events'| - 1; Publishes(states'[n], events'[n], t)
    ensures var s, s' := states[|events|], states'[|events'|];
            && s'.shared.routing == DualDispatching && s'.shared.resumeTarget == s.shared.resumeTarget
            && s'.shared.systemTarget == Payload(s.shared, s.threads[t].pc)
            && (forall u :: u != t && u in s.threads ==> u in s'.threads && s'.threads[u] == s.threads[u])
    decreases match states[|events|].threads[t].pc
              case ActReadSystem(_) => 3 case ActStoreSystem(_) => 2 case ActStoreConvention => 1 case _ => 0
  {
    hide Enabled, After, StoresHandler, NoStoreSince;
    states', events' := PromotionStep(states, events, t);
    NoStoreFurther(states', events', states, events, from);
    if states[|events|].threads[t].pc == ActStoreRouting {
      assert states'[|events|] == states'[..|states|][|events|];
    } else {
      var states1, events1 := states', events';
      states', events' := PromotionFinishes(states1, events1, t, from);
      ExtendsFurther(states', events', states1, events1, states, events);
    }
  }

  lemma SettledOwns(pc: Pc)
    ensures Settled(pc) ==> Owner(pc) && pc != ActReadResume
  {
  }

  /** At a promotion's read there is no system handler yet. */
  lemma NoSystemAtRead(states: seq<State>, events: seq<Event>, n: nat, t: nat)
    requires IsRun(states, events) && n <= |events|
    requires t in states[n].threads && states[n].threads[t].pc == ActReadResume
    ensures states[n].shared.systemTarget == 0
  {
    hide SharedInv;
    RunKeepsInv(states, events, n);
    SystemUnsetAlways(states, events, n);
    var s := states[n];
    forall u | u in s.threads ensures !Settled(s.threads[u].pc) {
      SettledOwns(s.threads[u].pc);
      assert Owner(s.threads[t].pc);
    }
    assert ThreadInv(s.shared, s.threads[t], SeenBy(events, n));
  }

  /** The run loses a handler: the promotion reads at `k`, the handler of thread `u` is stored at `j`
      and accepted, none is stored later, and what the promotion published in the end is not it. */
  predicate Loses(states: seq<State>, events: seq<Event>, k: nat, j: nat, t: nat, u: nat)
    requires |states| == |events| + 1
  {
    && k < j < |events| - 1
    && ReadsResume(states[k], events[k], t)
    && StoresHandler(states[j], events[j]) && events[j].t == u && states[j].threads[u].pc == RegStoreResume
    && NoStoreSince(states, events, j + 1)
    && Publishes(states[|events| - 1], events[|events| - 1], t)
    && var s := states[|events|];
       && s.shared.routing == DualDispatching
       && u in s.threads && s.threads[u].pc == Done(Consumed)
       && s.shared.resumeTarget == Stored(states[j], events[j]) != s.shared.systemTarget
       && s.shared.systemTarget == states[k].shared.resumeTarget
  }

  /** Whenever another handler is pending at a promotion's read, the run can go on to lose it. */
  lemma PendingHandlerCanBeLost(states: seq<State>, events: seq<Event>, t: nat, u: nat)
    returns (states': seq<State>, events': seq<Event>, j: nat)
    requires IsRun(states, events)
    requires t in states[|events|].threads && states[|events|].threads[t].pc == ActReadResume
    requires u in states[|events|].threads
    requires Pending(states[|events|].threads[u], states[|events|].shared.resumeTarget)
    ensures IsRun(states', events') && Extends(states', events', states, events)
    ensures Loses(states', events', |events|, j, t, u)
    ensures Stored(states'[j], events'[j]) == states[|events|].threads[u].job.argument
  {
    hide Enabled, After, StepOf, StoresHandler, Publishes;
    var k, s := |events|, states[|events|];
    NoSystemAtRead(states, events, k, t);
    var states1, events1 := Advance(states, events, t, false);
    ReadStep(s, t);
    var states2, events2 := PendingStores(states1, events1, t, u, s.shared.resumeTarget);
    j := |events2| - 1;
    states', events' := PromotionFinishes(states2, events2, t, j + 1);
    ExtendsFurther(states2, events2, states1, events1, states, events);
    ExtendsFurther(states', events', states2, events2, states, events);
    ExtendsFurther(states', events', states2, events2, states1, events1);
    ExtendsAt(states', events', states1, events1, k);
    ExtendsAt(states1, events1, states, events, k);
    ExtendsAt(states', events', states2, events2, j);
  }

  lemma ExtendsAt(states': seq<State>, events': seq<Event>, states: seq<State>, events: seq<Event>, i: nat)
    requires Extends(states', events', states, events)
    ensures i < |states| ==> states'[i] == states[i]
    ensures i < |events| ==> events'[i] == events[i]
  {
    assert i < |states| ==> states'[i] == states'[..|states|][i];
    assert i < |events| ==> events'[i] == events'[..|events|][i];
  }

  lemma ReadStep(s: State, t: nat)
    requires t in s.threads && s.threads[t].pc == ActReadResume && Fits(s.threads[t])
    ensures var (sh', th') := StepOf(s.shared, s.threads[t], false);
            sh' == s.shared && th' == s.threads[t].(pc := ActReadSystem(s.shared.resumeTarget))
  {
  }

  /** Every way the run can go on publishes the handler accepted last. */
  ghost predicate AlwaysCarries(states: seq<State>, events: seq<Event>, t: nat) {
    forall states': seq<State>, events': seq<Event>, n: nat ::
      IsRun(states', events') && Extends(states', events', states, events) && |events| <= n < |events'|
      && Publishes(states'[n], events'[n], t) ==>
        states'[n + 1].shared.systemTarget == LastAccepted(states', events', n + 1)
  }

  /** The exact condition, checkable at the read: a promotion is sure to carry over the handler
      accepted last if and only if nobody is then pending with another one. */
  lemma CarriesIffNobodyPending(states: seq<State>, events: seq<Event>, t: nat)
    requires IsRun(states, events)
    requires t in states[|events|].threads && states[|events|].threads[t].pc == ActReadResume
    ensures AlwaysCarries(states, events, t) <==>
            NobodyPending(states[|events|], states[|events|].shared.resumeTarget)
  {
    hide Enabled, After, LastAccepted, StoresHandler, Pending;
    var s := states[|events|];
    if NobodyPending(s, s.shared.resumeTarget) {
      forall states': seq<State>, events': seq<Event>, n: nat |
        IsRun(states', events') && Extends(states', events', states, events) && |events| <= n < |events'|
        && Publishes(states'[n], events'[n], t)
        ensures states'[n + 1].shared.systemTarget == LastAccepted(states', events', n + 1)
      {
        FrozenPublication(states', events', |events|, n, t, states, events);
      }
    } else {
      var u :| u in s.threads && Pending(s.threads[u], s.shared.resumeTarget);
      var states', events', j := PendingHandlerCanBeLost(states, events, t, u);
      ResumeWordIsLastAccepted(states', events', |events'|);
      assert !AlwaysCarries(states, events, t) by {
        var n := |events'| - 1;
        assert Publishes(states'[n], events'[n], t);
      }
    }
  }

  lemma FrozenPublication(states': seq<State>, events': seq<Event>, k: nat, n: nat, t: nat,
                          states: seq<State>, events: seq<Event>)
    requires IsRun(states', events') && k <= n < |events'| && Publishes(states'[n], events'[n], t)
    requires IsRun(states, events) && k == |events| && Extends(states', events', states, events)
    requires t in states[k].threads && states[k].threads[t].pc == ActReadResume
    requires NobodyPending(states[k], states[k].shared.resumeTarget)
    ensures states'[n + 1].shared.systemTarget == LastAccepted(states', events', n + 1)
  {
    hide Inv, Enabled, After;
    ExtendsAt(states', events', states, events, k);
    var read := CarriedUnlessStoredAfterRead(states', events', n, t);
    assert k <= read;
    HandlerFrozen(states', events', k, n + 1, t);
    ResumeWordIsLastAccepted(states', events', n + 1);
    ResumeWordIsLastAccepted(states', events', read);
    HandlerFrozen(states', events', k, read, t);
  }

  ghost predicate Reachable(s: State) {
    exists states, events :: IsRun(states, events) && states[|events|] == s
  }

  lemma Reach(s: State, e: Event)
    requires Reachable(s) && Enabled(s, e)
    ensures Reachable(After(s, e))
  {
    hide Enabled, After;
    var states, events :| IsRun(states, events) && states[|events|] == s;
    var states', events' := Extend(states, events, e);
  }

  /** Three leaves on three threads: two handlers and the leaf that promotes. */
  function Race(sh: Shared, first: Thread, second: Thread, promotes: Thread): State {
    State(sh, map[1 := first, 2 := second, 3 := promotes])
  }

  function Handler(target: nat, pc: Pc): Thread { Thread(Control(REGISTER_RESUME_HANDLER, target), pc) }

  function Promotes(pc: Pc): Thread { Thread(Control(REGISTER_SYSTEM_SYSCALL_ID, 7), pc) }

  /** Let one of the three threads make a step. */
  lemma Go(sh: Shared, first: Thread, second: Thread, promotes: Thread, t: nat, choice: bool)
    requires Reachable(Race(sh, first, second, promotes)) && 1 <= t <= 3
    requires var th := Race(sh, first, second, promotes).threads[t]; Fits(th) && !Finished(th.pc)
    ensures var (sh', th') := StepOf(sh, Race(sh, first, second, promotes).threads[t], choice);
            Reachable(if t == 1 then Race(sh', th', second, promotes)
                      else if t == 2 then Race(sh', first, th', promotes) else Race(sh', first, second, th'))
  {
    hide RegisterStep, Fits;
    var s := Race(sh, first, second, promotes);
    Reach(s, Step(t, choice));
    var (sh', th') := StepOf(sh, s.threads[t], choice);
    assert After(s, Step(t, choice)).threads ==
           map[1 := if t == 1 then th' else first, 2 := if t == 2 then th' else second,
               3 := if t == 3 then th' else promotes];
  }

  lemma RaceStarts(a: nat, b: nat)
    ensures Reachable(Race(Fresh, Handler(a, IdentityCas), Handler(b, IdentityCas), Promotes(ActLoad)))
  {
    hide Reachable;
    var s0 := State(Fresh, map[]);
    assert Reachable(s0) by { ReachesStart(); }
    var e1, e2 := Begin(1, Handler(a, RegLoad).job), Begin(2, Handler(b, RegLoad).job);
    Reach(s0, e1);
    var s1 := After(s0, e1);
    Reach(s1, e2);
    var s2 := After(s1, e2);
    var e3 := Begin(3, Promotes(ActLoad).job);
    Reach(s2, e3);
    assert After(s2, e3) == Race(Fresh, Handler(a, IdentityCas), Handler(b, IdentityCas), Promotes(ActLoad));
  }

  lemma ReachesStart()
    ensures Reachable(State(Fresh, map[]))
  {
    assert IsRun([State(Fresh, map[])], []);
  }

  function RegisteredWith(a: nat): Shared {
    Fresh.(routing := ResumeTarget, identity := DebugRegisterThread, resumeTarget := a)
  }

  /** The first handler is registered while the second waits. */
  lemma RaceRegisters(a: nat, b: nat)
    ensures Reachable(Race(RegisteredWith(a), Handler(a, Done(Consumed)), Handler(b, IdentityCas), Promotes(ActLoad)))
  {
    hide Reachable, Race;
    RaceStarts(a, b);
    var sh, second, third := Fresh.(identity := DebugRegisterThread), Handler(b, IdentityCas), Promotes(ActLoad);
    Go1(Fresh, a, IdentityCas, second, third);
    Go1(sh, a, RegLoad, second, third);
    Go1(sh, a, RegCas, second, third);
    sh := sh.(routing := RegisteringResumeTarget);
    Go1(sh, a, RegStoreTarget, second, third);
    sh := sh.(resumeTarget := a);
    Go1(sh, a, RegStoreConvention, second, third);
    Go1(sh, a, RegStoreRouting, second, third);
  }

  lemma Go1(sh: Shared, a: nat, pc: Pc, second: Thread, third: Thread)
    requires Reachable(Race(sh, Handler(a, pc), second, third)) && Fits(Handler(a, pc)) && !Finished(pc)
    ensures var (sh', th') := StepOf(sh, Handler(a, pc), false); Reachable(Race(sh', th', second, third))
  {
    hide StepOf, Fits, Reachable;
    Go(sh, Handler(a, pc), second, third, 1, false);
  }

  /** The second handler has passed its routing check when the promotion is about to read. */
  lemma RaceIsOn(a: nat, b: nat)
    ensures Reachable(Race(RegisteredWith(a).(routing := PromotingDualDispatch), Handler(a, Done(Consumed)),
                           Handler(b, RegPatch), Promotes(ActReadResume)))
  {
    hide Reachable, Race;
    RaceRegisters(a, b);
    var sh, first := RegisteredWith(a), Handler(a, Done(Consumed));
    Go23(sh, first, Handler(b, IdentityCas), Promotes(ActLoad), 2);
    Go23(sh, first, Handler(b, RegLoad), Promotes(ActLoad), 2);
    Go23(sh, first, Handler(b, RegPatch), Promotes(ActLoad), 3);
    Go23(sh, first, Handler(b, RegPatch), Promotes(ActCas(ResumeTarget)), 3);
  }

  lemma Go23(sh: Shared, first: Thread, second: Thread, third: Thread, t: nat)
    requires Reachable(Race(sh, first, second, third)) && 2 <= t <= 3
    requires var th := if t == 2 then second else third; Fits(th) && !Finished(th.pc)
    ensures var (sh', th') := StepOf(sh, if t == 2 then second else third, false);
            Reachable(if t == 2 then Race(sh', first, th', third) else Race(sh', first, second, th'))
  {
    hide StepOf, Fits, Reachable;
    Go(sh, first, second, third, t, false);
  }

  /** For any two different handlers there is a run that loses the one accepted last. */
  lemma AcceptedHandlerCanBeLost(a: nat, b: nat)
    returns (states: seq<State>, events: seq<Event>, k: nat, j: nat)
    requires a != b
    ensures IsRun(states, events) && Loses(states, events, k, j, 3, 2)
    ensures states[|events|].shared.resumeTarget == b == LastAccepted(states, events, |events|)
    ensures states[|events|].shared.systemTarget == a
  {
    hide Enabled, After, StoresHandler;
    RaceIsOn(a, b);
    var s := Race(RegisteredWith(a).(routing := PromotingDualDispatch), Handler(a, Done(Consumed)),
                  Handler(b, RegPatch), Promotes(ActReadResume));
    var states0, events0 :| IsRun(states0, events0) && states0[|events0|] == s;
    states, events, j := PendingHandlerCanBeLost(states0, events0, 3, 2);
    k := |events0|;
    ExtendsAt(states, events, states0, events0, k);
    ResumeWordIsLastAccepted(states, events, |events|);
  }
}
