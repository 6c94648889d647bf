/**
 The saved-action slot: readers in signal handlers copy the current snapshot under a reader count,
 one locked installer at a time swaps it, rolls back or reclaims it, and a reset compare-exchange may
 null it at any moment.  Freed addresses may be handed out again by the allocator.
 */
module SignalSlot {
  import opened Common

  /** Null is address 0.  `Loaded` remembers what the snapshot held when it was loaded, `Left` the action
      that was copied and is being delivered. */
  datatype Pc =
    | Entered
    | Loaded(snapshot: nat, action: nat)
    | Copied(from: nat, copy: nat)
    | Left(saved: nat, delivered: nat)
    | Locked
    | Allocated(next: nat)
    | Swapped(installed: nat, previous: nat)
    | Peeked(published: nat, replaced: nat)
    | Failing(keep: nat, restore: nat)
    | Waiting(garbage: nat)
    | Freeing(free: nat)
    | Unlocking

  /** `heap` holds the live snapshots and the action stored in each. */
  datatype State = State(current: nat, readers: nat, locked: bool, heap: map<nat, nat>, threads: map<nat, Pc>)

  const Initial := State(0, 0, false, map[], map[])

  datatype Event =
    | Enter(t: nat) | Load(t: nat) | Copy(t: nat) | Leave(t: nat) | Reset(t: nat, resets: bool)
    | Lock(t: nat) | Allocate(t: nat, address: Option<nat>, action: nat) | Swap(t: nat) | Peek(t: nat)
    | Real(t: nat, ok: bool) | RollBack(t: nat) | Poll(t: nat) | Free(t: nat) | Unlock(t: nat)

  predicate Enabled(s: State, e: Event) {
    if e.Enter? then e.t !in s.threads
    else if e.Lock? then e.t !in s.threads && !s.locked
    else
      && e.t in s.threads
      && var pc := s.threads[e.t];
         match e
         case Load(_) => pc.Entered?
         case Copy(_) => pc.Loaded?
         case Leave(_) => pc.Copied?
         case Reset(_, _) => pc.Left?
         case Allocate(_, a, _) => pc.Locked? && (a.Some? ==> a.value != 0 && a.value !in s.heap)
         case Swap(_) => pc.Allocated?
         case Peek(_) => pc.Swapped?
         case Real(_, _) => pc.Peeked?
         case RollBack(_) => pc.Failing?
         case Poll(_) => pc.Waiting?
         case Free(_) => pc.Freeing?
         case Unlock(_) => pc.Unlocking?
  }

  function Goto(s: State, t: nat, pc: Pc): State { s.(threads := s.threads[t := pc]) }

  function Gone(s: State, t: nat): State { s.(threads := s.threads - {t}) }

  function Read(s: State, snapshot: nat): nat { if snapshot in s.heap then s.heap[snapshot] else 0 }

  function After(s: State, e: Event): State
    requires Enabled(s, e)
  {
    match e
    case Enter(t) => Goto(s, t, Entered).(readers := s.readers + 1)
    case Load(t) => Goto(s, t, Loaded(s.current, Read(s, s.current)))
    case Copy(t) => Goto(s, t, Copied(s.threads[t].snapshot, Read(s, s.threads[t].snapshot)))
    case Leave(t) =>
      Goto(s, t, Left(s.threads[t].from, s.threads[t].copy)).(readers := if s.readers == 0 then 0 else s.readers - 1)
    case Reset(t, resets) =>
      if resets && s.current == s.threads[t].saved then Gone(s, t).(current := 0) else Gone(s, t)
    case Lock(t) => Goto(s, t, Locked).(locked := true)
    case Allocate(t, a, action) =>
      if a.None? then Goto(s, t, Unlocking) else Goto(s, t, Allocated(a.value)).(heap := s.heap[a.value := action])
    case Swap(t) => Goto(s, t, Swapped(s.threads[t].next, s.current)).(current := s.threads[t].next)
    case Peek(t) => Goto(s, t, Peeked(s.threads[t].installed, s.threads[t].previous))
    case Real(t, ok) =>
      var pc := s.threads[t];
      Goto(s, t, if ok then Waiting(pc.replaced) else Failing(pc.published, pc.replaced))
    case RollBack(t) => Goto(s, t, Waiting(s.current)).(current := s.threads[t].restore)
    case Poll(t) =>
      var garbage := s.threads[t].garbage;
      if garbage == 0 then Goto(s, t, Unlocking)
      else if s.readers == 0 then Goto(s, t, Freeing(garbage)) else s
    case Free(t) => Goto(s, t, Unlocking).(heap := s.heap - {s.threads[t].free})
    case Unlock(t) => Gone(s, t).(locked := false)
  }

  ghost predicate IsRun(states: seq<State>, events: seq<Event>) {
    && |states| == |events| + 1
    && states[0] == Initial
    && forall i :: 0 <= i < |events| ==> Enabled(states[i], events[i]) && states[i + 1] == After(states[i], events[i])
  }

  predicate Reading(pc: Pc) { pc.Entered? || pc.Loaded? || pc.Copied? }

  predicate Installing(pc: Pc) { !Reading(pc) && !pc.Left? }

  ghost function Readers(threads: map<nat, Pc>): set<nat> {
    set t | t in threads && Reading(threads[t])
  }

  /** A live snapshot the slot does not point to. */
  predicate Detached(s: State, a: nat) { a != 0 ==> a in s.heap && a != s.current }

  predicate NotHeld(s: State, a: nat) {
    forall t :: t in s.threads && s.threads[t].Loaded? ==> s.threads[t].snapshot != a
  }

  predicate PcInv(s: State, pc: Pc) {
    match pc
    case Loaded(a, action) => (a != 0 ==> a in s.heap && s.heap[a] == action) && (a == 0 ==> action == 0)
    case Allocated(a) => a != 0 && Detached(s, a)
    case Swapped(a, prev) => InstallInv(s, a, prev)
    case Peeked(a, prev) => InstallInv(s, a, prev)
    case Failing(a, prev) => InstallInv(s, a, prev)
    case Waiting(a) => Detached(s, a)
    case Freeing(a) => a != 0 && Detached(s, a) && NotHeld(s, a)
    case _ => true
  }

  /** After the swap the slot holds the new snapshot or null, and the old one is detached. */
  predicate InstallInv(s: State, a: nat, prev: nat) {
    a != 0 && a in s.heap && a != prev && Detached(s, prev) && (s.current == a || s.current == 0)
  }

  predicate MemoryInv(s: State) { 0 !in s.heap && (s.current != 0 ==> s.current in s.heap) }

  /** The lock has at most one holder, and only a holder installs. */
  predicate LockInv(s: State) {
    && (forall t :: t in s.threads && Installing(s.threads[t]) ==> s.locked)
    && (forall t, u :: t in s.threads && u in s.threads && Installing(s.threads[t]) && Installing(s.threads[u]) ==>
        t == u)
  }

  ghost predicate Inv(s: State) {
    && MemoryInv(s) && LockInv(s)
    && s.readers == |Readers(s.threads)|
    && (forall t :: t in s.threads ==> PcInv(s, s.threads[t]))
  }

  lemma ReadersAt(threads: map<nat, Pc>, t: nat)
    ensures t in Readers(threads) <==> t in threads && Reading(threads[t])
  {
  }

  lemma CountAfter(threads: map<nat, Pc>, t: nat, pc: Pc)
    ensures var was := One(t in threads && Reading(threads[t]));
            && |Readers(threads[t := pc])| == |Readers(threads)| - was + One(Reading(pc))
            && |Readers(threads - {t})| == |Readers(threads)| - was
  {
    hide Readers, Reading;
    var put, cut := threads[t := pc], threads - {t};
    forall u: nat ensures u in Readers(threads) - {t} <==> u in Readers(put) - {t}
                  ensures u in Readers(threads) - {t} <==> u in Readers(cut) - {t}
    {
      ReadersAt(threads, u);
      ReadersAt(put, u);
      ReadersAt(cut, u);
    }
    assert Readers(threads) - {t} == Readers(put) - {t} == Readers(cut) - {t};
    ReadersAt(threads, t);
    ReadersAt(put, t);
    ReadersAt(cut, t);
    Without(Readers(threads), t);
    Without(Readers(put), t);
    Without(Readers(cut), t);
  }

  lemma ReadersStep(s: State, e: Event)
    requires Inv(s) && Enabled(s, e)
    ensures After(s, e).readers == |Readers(After(s, e).threads)|
  {
    hide PcInv, Readers;
    var s' := After(s, e);
    CountAfter(s.threads, e.t, if e.t in s'.threads then s'.threads[e.t] else Unlocking);
    if s'.threads != s.threads {
      assert s'.threads == if e.t in s'.threads then s.threads[e.t := s'.threads[e.t]] else s.threads - {e.t};
    }
  }

  /** With no readers nobody holds anything. */
  lemma NoReadersNoHolder(s: State, a: nat)
    requires Inv(s) && s.readers == 0
    ensures NotHeld(s, a)
  {
    assert Readers(s.threads) == {};
    assert forall t :: t in s.threads && s.threads[t].Loaded? ==> t in Readers(s.threads);
  }

  lemma OwnStep(s: State, e: Event)
    requires Inv(s) && Enabled(s, e)
    ensures e.t in After(s, e).threads ==> PcInv(After(s, e), After(s, e).threads[e.t])
  {
    if e.t in s.threads {
      assert PcInv(s, s.threads[e.t]);
    }
    if e.Poll? && s.readers == 0 {
      NoReadersNoHolder(s, s.threads[e.t].garbage);
    }
  }

  /** A step of one thread keeps what another thread relies on. */
  lemma OtherStep(s: State, e: Event, u: nat)
    requires Inv(s) && Enabled(s, e) && u in s.threads && u != e.t
    ensures PcInv(After(s, e), s.threads[u])
  {
    assert PcInv(s, s.threads[u]);
    if e.t in s.threads {
      assert PcInv(s, s.threads[e.t]);
    }
  }

  lemma MemoryStep(s: State, e: Event)
    requires Inv(s) && Enabled(s, e)
    ensures MemoryInv(After(s, e))
  {
    if e.t in s.threads {
      assert PcInv(s, s.threads[e.t]);
    }
  }

  lemma LockStep(s: State, e: Event)
    requires LockInv(s) && Enabled(s, e)
    ensures LockInv(After(s, e))
  {
  }

  lemma StepKeepsInv(s: State, e: Event)
    requires Inv(s) && Enabled(s, e)
    ensures Inv(After(s, e))
  {
    hide PcInv, LockInv, MemoryInv, Readers;
    ReadersStep(s, e);
    OwnStep(s, e);
    MemoryStep(s, e);
    LockStep(s, e);
    var s' := After(s, e);
    forall u | u in s'.threads ensures PcInv(s', s'.threads[u]) {
      if u != e.t {
        assert u in s.threads && s'.threads[u] == s.threads[u];
        OtherStep(s, e, u);
      }
    }
  }

  lemma {:induction false} RunKeepsInv(states: seq<State>, events: seq<Event>, n: nat)
    requires IsRun(states, events) && n <= |events|
    ensures Inv(states[n])
  {
    if n > 0 {
      RunKeepsInv(states, events, n - 1);
      StepKeepsInv(states[n - 1], events[n - 1]);
    }
  }

  /** No reader copies a released snapshot, and it copies what it saw in the slot. */
  lemma CopiesAreLive(states: seq<State>, events: seq<Event>, n: nat)
    requires IsRun(states, events) && n < |events| && events[n].Copy?
    ensures var pc := states[n].threads[events[n].t];
            && (pc.snapshot != 0 ==> pc.snapshot in states[n].heap)
            && states[n + 1].threads[events[n].t].copy == pc.action
  {
    RunKeepsInv(states, events, n);
    assert PcInv(states[n], states[n].threads[events[n].t]);
  }

  /** The installer's own look at the snapshot it replaced is safe too. */
  lemma PeeksAreLive(states: seq<State>, events: seq<Event>, n: nat)
    requires IsRun(states, events) && n < |events| && events[n].Peek?
    ensures var previous := states[n].threads[events[n].t].previous; previous != 0 ==> previous in states[n].heap
  {
    RunKeepsInv(states, events, n);
    assert PcInv(states[n], states[n].threads[events[n].t]);
  }

  /** A snapshot is released only while live, detached and unread: never twice, never under a reader. */
  lemma ReleasesAreSafe(states: seq<State>, events: seq<Event>, n: nat)
    requires IsRun(states, events) && n < |events| && events[n].Free?
    ensures var a := states[n].threads[events[n].t].free;
            && a in states[n].heap && a !in states[n + 1].heap
            && states[n].current != a && NotHeld(states[n], a)
  {
    RunKeepsInv(states, events, n);
    assert PcInv(states[n], states[n].threads[events[n].t]);
  }

  /** What the slot points to is never released. */
  lemma CurrentIsLive(states: seq<State>, events: seq<Event>, n: nat)
    requires IsRun(states, events) && n <= |events|
    ensures states[n].current != 0 ==> states[n].current in states[n].heap
  {
    RunKeepsInv(states, events, n);
  }

  predicate Allocates(e: Event, a: nat) { e.Allocate? && e.address == Some(a) }

  predicate Releases(s: State, e: Event, a: nat) {
    e.Free? && e.t in s.threads && s.threads[e.t].Freeing? && s.threads[e.t].free == a
  }

  /** Which allocation of address `a` is in force after `n` events: its position, 0 for none. */
  function Birth(events: seq<Event>, a: nat, n: nat): (b: nat)
    requires n <= |events|
    ensures b <= n
  {
    if n == 0 then 0 else if Allocates(events[n - 1], a) then n else Birth(events, a, n - 1)
  }

  lemma HeapStep(s: State, e: Event, a: nat)
    requires Enabled(s, e)
    ensures Allocates(e, a) ==> a !in s.heap && a in After(s, e).heap
    ensures Releases(s, e, a) ==> a !in After(s, e).heap
    ensures !Allocates(e, a) && !Releases(s, e, a) ==>
              (a in After(s, e).heap <==> a in s.heap) && (a in s.heap ==> After(s, e).heap[a] == s.heap[a])
  {
  }

  /** Between events `l` and `n` thread `t` only goes on with the read it began at `l`. */
  predicate SameRead(events: seq<Event>, l: nat, n: nat, t: nat)
    requires l < n <= |events|
  {
    events[l] == Load(t) && forall x :: l < x < n && events[x].t == t ==> events[x].Copy? || events[x].Leave?
  }

  /** A reader keeps the address and the action it loaded. */
  predicate Carries(pc: Pc, a: nat, action: nat) {
    || (pc.Loaded? && pc.snapshot == a && pc.action == action)
    || (pc.Copied? && pc.from == a && pc.copy == action)
    || (pc.Left? && pc.saved == a && pc.delivered == action)
  }

  lemma {:induction false} ReaderCarries(states: seq<State>, events: seq<Event>, l: nat, n: nat, t: nat)
    requires IsRun(states, events) && l < n <= |events| && SameRead(events, l, n, t)
    ensures t in states[n].threads
    ensures Carries(states[n].threads[t], states[l].current, Read(states[l], states[l].current))
    decreases n
  {
    hide Enabled, After, Carries, Read;
    if n == l + 1 {
      CarryStarts(states[l], t);
    } else {
      ReaderCarries(states, events, l, n - 1, t);
      var a, action := states[l].current, Read(states[l], states[l].current);
      if events[n - 1] == Copy(t) {
        CopiesAreLive(states, events, n - 1);
        CarriesLoaded(states[n - 1], t, a, action);
      }
      CarryStep(states[n - 1], events[n - 1], t, a, action);
    }
  }

  lemma CarriesLoaded(s: State, t: nat, a: nat, action: nat)
    requires Enabled(s, Copy(t)) && Carries(s.threads[t], a, action)
    ensures s.threads[t] == Loaded(a, action)
  {
  }

  lemma CarryStarts(s: State, t: nat)
    requires Enabled(s, Load(t))
    ensures var s' := After(s, Load(t)); t in s'.threads && Carries(s'.threads[t], s.current, Read(s, s.current))
  {
  }

  lemma CarryStep(s: State, e: Event, t: nat, a: nat, action: nat)
    requires Enabled(s, e) && t in s.threads && Carries(s.threads[t], a, action)
    requires e.t == t ==> e.Copy? || e.Leave?
    requires e == Copy(t) ==> After(s, e).threads[t].copy == action
    ensures t in After(s, e).threads && Carries(After(s, e).threads[t], a, action)
  {
  }

  predicate NotReleased(states: seq<State>, events: seq<Event>, a: nat, l: nat, n: nat)
    requires n <= |events| < |states|
  {
    forall x :: l <= x < n ==> !Releases(states[x], events[x], a)
  }

  /** A snapshot that is not released stays as it is. */
  lemma {:induction false} UnreleasedStays(states: seq<State>, events: seq<Event>, a: nat, l: nat, n: nat)
    requires IsRun(states, events) && l <= n <= |events| && a in states[l].heap && NotReleased(states, events, a, l, n)
    ensures a in states[n].heap && states[n].heap[a] == states[l].heap[a]
    ensures Birth(events, a, n) == Birth(events, a, l)
    decreases n
  {
    hide Enabled, After, Releases;
    if n > l {
      UnreleasedStays(states, events, a, l, n - 1);
      HeapStep(states[n - 1], events[n - 1], a);
    }
  }

  /** An address that comes back after a release has been allocated again. */
  lemma {:induction false} BackAgain(states: seq<State>, events: seq<Event>, a: nat, f: nat, n: nat)
    requires IsRun(states, events) && f < n <= |events| && Releases(states[f], events[f], a) && a in states[n].heap
    ensures Birth(events, a, n) > f + 1
    decreases n
  {
    hide Enabled, After, Releases;
    HeapStep(states[n - 1], events[n - 1], a);
    if n > f + 1 && !Allocates(events[n - 1], a) {
      BackAgain(states, events, a, f, n - 1);
    }
  }

  /** When a reset takes an action down: it is the very snapshot that was delivered, still holding the
      delivered action, if and only if that snapshot has not been released since it was loaded. */
  lemma ResetClearsDelivered(states: seq<State>, events: seq<Event>, l: nat, n: nat, t: nat)
    requires IsRun(states, events) && l < n < |events| && SameRead(events, l, n, t)
    requires events[n] == Reset(t, true) && states[n].current != 0 && states[n + 1].current == 0
    ensures states[n].current == states[l].current && states[n].current in states[n].heap
    ensures states[n].threads[t] == Left(states[n].current, Read(states[l], states[l].current))
    ensures var a := states[n].current;
            Birth(events, a, n) == Birth(events, a, l) <==> NotReleased(states, events, a, l, n)
    ensures var a := states[n].current;
            NotReleased(states, events, a, l, n) ==> states[n].heap[a] == states[n].threads[t].delivered
  {
    hide Releases;
    ReaderCarries(states, events, l, n, t);
    CurrentIsLive(states, events, n);
    CurrentIsLive(states, events, l);
    var a := states[n].current;
    if NotReleased(states, events, a, l, n) {
      UnreleasedStays(states, events, a, l, n);
    } else {
      var f :| l <= f < n && Releases(states[f], events[f], a);
      BackAgain(states, events, a, f, n);
    }
  }

  /** The installer `t` is between its swap and the answer of the real `sigaction`. */
  predicate Placing(pc: Pc, a: nat, previous: nat) {
    pc == Swapped(a, previous) || pc == Peeked(a, previous) || pc == Failing(a, previous)
  }

  /** Event `w` is `t`'s swap and up to `n` it has only looked and been refused. */
  predicate SameInstall(events: seq<Event>, w: nat, n: nat, t: nat)
    requires w < n <= |events|
  {
    events[w] == Swap(t) && forall x :: w < x < n && events[x].t == t ==> events[x].Peek? || events[x] == Real(t, false)
  }

  /** A reset took the snapshot at `a` down during events `w` to `n`. */
  ghost predicate TakenDown(states: seq<State>, events: seq<Event>, a: nat, w: nat, n: nat)
    requires w <= n <= |events| < |states|
  {
    exists x :: w < x < n && events[x].Reset? && states[x].current == a && states[x + 1].current == 0
  }

  /** While one thread installs, nobody else replaces or releases anything. */
  lemma InstallStep(s: State, e: Event, t: nat, a: nat, previous: nat)
    requires Inv(s) && Enabled(s, e) && t in s.threads && Placing(s.threads[t], a, previous)
    requires e.t == t ==> e.Peek? || e == Real(t, false)
    ensures t in After(s, e).threads && Placing(After(s, e).threads[t], a, previous)
    ensures After(s, e).current == s.current || (e.Reset? && After(s, e).current == 0)
    ensures Preserves(s, After(s, e))
  {
    hide Readers, PcInv;
  }

  lemma InstallStarts(s: State, t: nat)
    requires Enabled(s, Swap(t))
    ensures var s' := After(s, Swap(t)); var a := s.threads[t].next;
            t in s'.threads && Placing(s'.threads[t], a, s.current) && s'.current == a && s'.heap == s.heap
    ensures t in s.threads && s.threads[t].Allocated?
  {
  }

  lemma TakenDownStays(states: seq<State>, events: seq<Event>, a: nat, w: nat, m: nat)
    requires w < m < |events| < |states|
    ensures TakenDown(states, events, a, w, m) ==> TakenDown(states, events, a, w, m + 1)
    ensures events[m].Reset? && states[m].current == a && states[m + 1].current == 0 ==>
              TakenDown(states, events, a, w, m + 1)
  {
  }

  ghost predicate SameOrDown(states: seq<State>, events: seq<Event>, a: nat, w: nat, n: nat)
    requires w <= n <= |events| < |states|
  {
    states[n].current == a || (states[n].current == 0 && TakenDown(states, events, a, w, n))
  }

  predicate Preserves(s: State, s': State) { forall b :: b in s.heap ==> b in s'.heap && s'.heap[b] == s.heap[b] }

  lemma {:induction false} InstallHolds(states: seq<State>, events: seq<Event>, w: nat, n: nat, t: nat)
    requires IsRun(states, events) && w < n <= |events| && SameInstall(events, w, n, t)
    ensures t in states[w].threads && states[w].threads[t].Allocated? && t in states[n].threads
    ensures Placing(states[n].threads[t], states[w].threads[t].next, states[w].current)
    ensures Preserves(states[w], states[n]) && SameOrDown(states, events, states[w].threads[t].next, w, n)
    decreases n
  {
    hide Enabled, After, TakenDown, Placing, Inv;
    if n == w + 1 {
      InstallStarts(states[w], t);
    } else {
      var m := n - 1;
      InstallHolds(states, events, w, m, t);
      RunKeepsInv(states, events, m);
      InstallStep(states[m], events[m], t, states[w].threads[t].next, states[w].current);
      TakenDownStays(states, events, states[w].threads[t].next, w, m);
    }
  }

  lemma OthersPreserve(s: State, e: Event, t: nat)
    requires Inv(s) && Enabled(s, e) && t in s.threads && Installing(s.threads[t]) && e.t != t
    ensures t in After(s, e).threads && After(s, e).threads[t] == s.threads[t]
    ensures Preserves(s, After(s, e))
  {
    hide Readers, PcInv;
  }

  /** Until its swap, an installer's new snapshot holds the requested action. */
  lemma {:induction false} AllocationHolds(states: seq<State>, events: seq<Event>, g: nat, n: nat, t: nat)
    requires IsRun(states, events) && g < n <= |events|
    requires events[g].Allocate? && events[g].t == t && events[g].address.Some?
    requires forall x :: g < x < n ==> events[x].t != t
    ensures t in states[n].threads && states[n].threads[t] == Allocated(events[g].address.value)
    ensures events[g].address.value in states[n].heap && states[n].heap[events[g].address.value] == events[g].action
    decreases n
  {
    if n > g + 1 {
      hide Enabled, After;
      AllocationHolds(states, events, g, n - 1, t);
      RunKeepsInv(states, events, n - 1);
      OthersPreserve(states[n - 1], events[n - 1], t);
    }
  }

  /** When the real `sigaction` accepts, the slot holds the snapshot allocated for the request, with
      the requested action, unless a reset has taken it down meanwhile. */
  lemma InstallTakesEffect(states: seq<State>, events: seq<Event>, g: nat, w: nat, n: nat, t: nat)
    requires IsRun(states, events) && g < w < n < |events|
    requires events[g].Allocate? && events[g].t == t && events[g].address.Some?
    requires forall x :: g < x < w ==> events[x].t != t
    requires SameInstall(events, w, n, t) && events[n] == Real(t, true)
    ensures var a := events[g].address.value;
            && a in states[n + 1].heap && states[n + 1].heap[a] == events[g].action
            && (states[n + 1].current == a || (states[n + 1].current == 0 && TakenDown(states, events, a, w, n)))
  {
    AllocationHolds(states, events, g, w, t);
    InstallHolds(states, events, w, n, t);
  }

  /** When it refuses, the slot holds the replaced snapshot again, with its old action. */
  lemma RollBackRestores(states: seq<State>, events: seq<Event>, w: nat, n: nat, t: nat)
    requires IsRun(states, events) && w < n < |events| && SameInstall(events, w, n, t) && events[n] == RollBack(t)
    ensures states[n + 1].current == states[w].current
    ensures states[w].current != 0 ==>
              && states[w].current in states[w].heap && states[w].current in states[n + 1].heap
              && states[n + 1].heap[states[w].current] == states[w].heap[states[w].current]
  {
    InstallHolds(states, events, w, n, t);
    CurrentIsLive(states, events, w);
  }

  ghost predicate Reachable(s: State) {
    exists states, events :: IsRun(states, events) && states[|events|] == s
  }

  lemma Reach(s: State, e: Event) returns (s': State)
    requires Reachable(s) && Enabled(s, e)
    ensures s' == After(s, e) && Reachable(s')
  {
    hide Enabled, After;
    var states, events :| IsRun(states, events) && states[|events|] == s;
    s' := After(s, e);
    var states', events' := states + [s'], events + [e];
    assert forall i :: 0 <= i < |states| ==> states'[i] == states[i];
    assert forall i :: 0 <= i < |events| ==> events'[i] == events[i];
    assert IsRun(states', events') && states'[|events'|] == s';
  }

  lemma InstallSwaps(s: State, a: nat, action: nat) returns (s': State)
    requires Reachable(s) && !s.locked && 0 !in s.threads && a != 0 && a !in s.heap
    ensures Reachable(s')
    ensures s' == State(a, s.readers, true, s.heap[a := action], s.threads[0 := Waiting(s.current)])
  {
    hide Reachable;
    s' := Reach(s, Lock(0));
    s' := Reach(s', Allocate(0, Some(a), action));
    s' := Reach(s', Swap(0));
    assert s' == State(a, s.readers, true, s.heap[a := action], s.threads[0 := Swapped(a, s.current)]);
    s' := Reach(s', Peek(0));
    s' := Reach(s', Real(0, true));
  }

  lemma InstallReclaims(s: State, garbage: nat) returns (s': State)
    requires Reachable(s) && s.readers == 0 && 0 in s.threads && s.threads[0] == Waiting(garbage)
    ensures Reachable(s')
    ensures s' == State(s.current, 0, false, if garbage == 0 then s.heap else s.heap - {garbage}, s.threads - {0})
  {
    hide Reachable;
    s' := Reach(s, Poll(0));
    if garbage != 0 {
      s' := Reach(s', Free(0));
    }
    s' := Reach(s', Unlock(0));
    assert s'.threads == s.threads - {0};
  }

  /** An undisturbed install while nobody is reading. */
  lemma Install(s: State, a: nat, action: nat) returns (s': State)
    requires Reachable(s) && !s.locked && s.readers == 0 && 0 !in s.threads && a != 0 && a !in s.heap
    ensures Reachable(s')
    ensures var heap := s.heap[a := action];
            s' == State(a, 0, false, if s.current == 0 then heap else heap - {s.current}, s.threads)
  {
    hide Reachable;
    s' := InstallSwaps(s, a, action);
    s' := InstallReclaims(s', s.current);
    assert s'.threads == s.threads;
  }

  /** A released address that is handed out again lets a reset take down an action it never delivered:
      the reader delivers action 10, the slot now holds action 30. */
  lemma ResetCanClearAnother() returns (s: State)
    ensures Reachable(s) && Enabled(s, Reset(1, true))
    ensures s.threads[1] == Left(s.current, 10) && s.current in s.heap && s.heap[s.current] == 30
    ensures After(s, Reset(1, true)).current == 0
  {
    assert IsRun([Initial], []);
    s := Install(Initial, 1, 10);
    s := Reach(s, Enter(1));
    s := Reach(s, Load(1));
    s := Reach(s, Copy(1));
    s := Reach(s, Leave(1));
    s := Install(s, 2, 20);
    s := Install(s, 1, 30);
  }
}
