/**
 The lock-free table of private syscall trampolines: sites are claimed by compare-exchange under linear
 probing and never deleted; each site's trampoline page is built optimistically and published once.
 Every interleaving of lookups is explored, one atomic access or system call per step.
 */
module Trampolines {
  import opened Common

  const TRAMPOLINE_CAPACITY: nat := 16384
  const ADDRESS_SPACE: nat := 0x1_0000_0000_0000_0000

  type SlotIndex = i: nat | i < TRAMPOLINE_CAPACITY

  function Slot(site: nat, offset: nat): SlotIndex {
    (site / 2 % TRAMPOLINE_CAPACITY + offset) % TRAMPOLINE_CAPACITY
  }

  datatype Pc =
    | Probing(offset: nat)
    | Claiming(gap: nat)
    | ReadTarget(index: SlotIndex)
    | Building(home: SlotIndex)
    | Publishing(slot: SlotIndex, page: nat)
    | Discarding(loser: nat, winner: nat)
    | Found(target: nat)
    | NoSpace
    | Failed

  datatype Lookup = Lookup(site: nat, pc: Pc)

  /** `pages` maps every mapped trampoline page to the site it returns to. */
  datatype State = State(sites: seq<nat>, targets: seq<nat>, pages: map<nat, nat>, lookups: map<nat, Lookup>)

  predicate Init(s: State) {
    && s.pages == map[] && s.lookups == map[] && |s.sites| == |s.targets| == TRAMPOLINE_CAPACITY
    && forall i :: 0 <= i < TRAMPOLINE_CAPACITY ==> s.sites[i] == s.targets[i] == 0
  }

  /** `Begin` is a fault at a readable, hence non-null, address. */
  datatype Event =
    | Begin(t: nat, site: nat)
    | Load(t: nat)
    | Claim(t: nat)
    | LoadTarget(t: nat)
    | Build(t: nat, mapping: Option<nat>)
    | Publish(t: nat)
    | Unmap(t: nat)

  predicate Shaped(s: State) { |s.sites| == |s.targets| == TRAMPOLINE_CAPACITY }

  predicate Finished(pc: Pc) { pc.Found? || pc.NoSpace? || pc.Failed? }

  predicate Enabled(s: State, e: Event) {
    && Shaped(s)
    && match e
       case Begin(t, site) => site != 0 && (t in s.lookups ==> Finished(s.lookups[t].pc))
       case Load(t) => t in s.lookups && s.lookups[t].pc.Probing?
       case Claim(t) => t in s.lookups && s.lookups[t].pc.Claiming?
       case LoadTarget(t) => t in s.lookups && s.lookups[t].pc.ReadTarget?
       case Build(t, mapping) =>
         && t in s.lookups && s.lookups[t].pc.Building?
         && (mapping.Some? ==> mapping.value != 0 && mapping.value !in s.pages)
       case Publish(t) => t in s.lookups && s.lookups[t].pc.Publishing?
       case Unmap(t) => t in s.lookups && s.lookups[t].pc.Discarding?
  }

  function Goto(s: State, t: nat, pc: Pc): State
    requires t in s.lookups
  {
    s.(lookups := s.lookups[t := s.lookups[t].(pc := pc)])
  }

  function After(s: State, e: Event): State
    requires Enabled(s, e)
  {
    match e
    case Begin(t, site) =>
      s.(lookups := s.lookups[t := Lookup(site, if site + 2 < ADDRESS_SPACE then Probing(0) else Failed)])
    case Load(t) => Goto(s, t, ProbeStep(s.sites, s.lookups[t].site, s.lookups[t].pc.offset))
    case Claim(t) =>
      var i := Slot(s.lookups[t].site, s.lookups[t].pc.gap);
      if s.sites[i] != 0 then Goto(s, t, Probing(s.lookups[t].pc.gap))
      else Goto(s, t, ReadTarget(i)).(sites := s.sites[i := s.lookups[t].site])
    case LoadTarget(t) =>
      var i := s.lookups[t].pc.index;
      Goto(s, t, if s.targets[i] != 0 then Found(s.targets[i]) else Building(i))
    case Build(t, mapping) =>
      if mapping.None? then Goto(s, t, Failed)
      else
        Goto(s, t, Publishing(s.lookups[t].pc.home, mapping.value))
        .(pages := s.pages[mapping.value := s.lookups[t].site])
    case Publish(t) =>
      var pc := s.lookups[t].pc;
      if s.targets[pc.slot] != 0 then Goto(s, t, Discarding(pc.page, s.targets[pc.slot]))
      else Goto(s, t, Found(pc.page)).(targets := s.targets[pc.slot := pc.page])
    case Unmap(t) => Goto(s, t, Found(s.lookups[t].pc.winner)).(pages := Without(s.pages, s.lookups[t].pc.loser))
  }

  function Without(pages: map<nat, nat>, page: nat): map<nat, nat> { pages - {page} }

  /** What a lookup does with the slot its probe has reached. */
  function ProbeStep(sites: seq<nat>, site: nat, offset: nat): Pc
    requires |sites| == TRAMPOLINE_CAPACITY
  {
    if offset >= TRAMPOLINE_CAPACITY then NoSpace
    else if sites[Slot(site, offset)] == site then ReadTarget(Slot(site, offset))
    else if sites[Slot(site, offset)] != 0 then Probing(offset + 1)
    else Claiming(offset)
  }

  ghost predicate IsRun(states: seq<State>, events: seq<Event>) {
    && |states| == |events| + 1
    && Init(states[0])
    && forall i :: 0 <= i < |events| ==> Enabled(states[i], events[i]) && states[i + 1] == After(states[i], events[i])
  }

  /** The first `n` probe positions of `site` hold other sites. */
  ghost predicate Passed(sites: seq<nat>, site: nat, n: nat)
    requires |sites| == TRAMPOLINE_CAPACITY
  {
    forall p: nat :: p < n ==> sites[Slot(site, p)] != 0 && sites[Slot(site, p)] != site
  }

  /** A claimed slot lies on its site's probe path behind only other sites. */
  ghost predicate Placed(sites: seq<nat>, i: SlotIndex)
    requires |sites| == TRAMPOLINE_CAPACITY
  {
    exists n: nat :: n < TRAMPOLINE_CAPACITY && Slot(sites[i], n) == i && Passed(sites, sites[i], n)
  }

  /** The page a lookup has built but not published. */
  function Private(pc: Pc): Option<nat> {
    match pc case Publishing(_, page) => Some(page) case Discarding(page, _) => Some(page) case _ => None
  }

  ghost predicate LookupInv(sites: seq<nat>, targets: seq<nat>, l: Lookup)
    requires |sites| == |targets| == TRAMPOLINE_CAPACITY
  {
    && l.site != 0
    && match l.pc
       case Probing(n) => n <= TRAMPOLINE_CAPACITY && Passed(sites, l.site, n)
       case Claiming(n) => n < TRAMPOLINE_CAPACITY && Passed(sites, l.site, n)
       case ReadTarget(i) => sites[i] == l.site
       case Building(i) => sites[i] == l.site
       case Publishing(i, _) => sites[i] == l.site
       case Discarding(_, winner) => Published(sites, targets, l.site, winner)
       case Found(target) => Published(sites, targets, l.site, target)
       case NoSpace => Passed(sites, l.site, TRAMPOLINE_CAPACITY)
       case Failed => true
  }

  ghost predicate Published(sites: seq<nat>, targets: seq<nat>, site: nat, target: nat)
    requires |sites| == |targets| == TRAMPOLINE_CAPACITY
  {
    target != 0 && exists i: SlotIndex :: sites[i] == site && targets[i] == target
  }

  ghost predicate SlotsInv(sites: seq<nat>, targets: seq<nat>, pages: map<nat, nat>)
    requires |sites| == |targets| == TRAMPOLINE_CAPACITY
  {
    && (forall i: SlotIndex :: sites[i] != 0 ==> Placed(sites, i))
    && (forall i: SlotIndex :: targets[i] != 0 ==>
        sites[i] != 0 && targets[i] in pages && pages[targets[i]] == sites[i])
  }

  /** A mapped page built for `site` that no slot holds. */
  ghost predicate Unpublished(targets: seq<nat>, pages: map<nat, nat>, page: nat, site: nat) {
    page != 0 && page in pages && pages[page] == site && page !in targets
  }

  /** Unpublished pages belong to one lookup each. */
  ghost predicate PrivateInv(targets: seq<nat>, pages: map<nat, nat>, lookups: map<nat, Lookup>) {
    && (forall t :: t in lookups && Private(lookups[t].pc).Some? ==>
          Unpublished(targets, pages, Private(lookups[t].pc).value, lookups[t].site))
    && (forall t, u :: (&& t in lookups && u in lookups && Private(lookups[t].pc).Some?
                        && Private(lookups[t].pc) == Private(lookups[u].pc)) ==> t == u)
  }

  ghost predicate Inv(s: State) {
    && Shaped(s)
    && SlotsInv(s.sites, s.targets, s.pages)
    && (forall t :: t in s.lookups ==> LookupInv(s.sites, s.targets, s.lookups[t]))
    && PrivateInv(s.targets, s.pages, s.lookups)
  }

  /** Slots change only from empty to a value. */
  predicate WriteOnce(a: seq<nat>, b: seq<nat>) {
    |a| == |b| && forall i :: 0 <= i < |a| && a[i] != 0 ==> b[i] == a[i]
  }

  lemma LookupStable(sites: seq<nat>, targets: seq<nat>, sites': seq<nat>, targets': seq<nat>, l: Lookup)
    requires |sites| == |targets| == TRAMPOLINE_CAPACITY && LookupInv(sites, targets, l)
    requires WriteOnce(sites, sites') && WriteOnce(targets, targets')
    ensures LookupInv(sites', targets', l)
  {
  }

  lemma ClaimKeepsSlots(sites: seq<nat>, targets: seq<nat>, pages: map<nat, nat>, site: nat, n: nat)
    requires |sites| == |targets| == TRAMPOLINE_CAPACITY && SlotsInv(sites, targets, pages)
    requires site != 0 && n < TRAMPOLINE_CAPACITY && Passed(sites, site, n) && sites[Slot(site, n)] == 0
    ensures SlotsInv(sites[Slot(site, n) := site], targets, pages)
  {
    var at := Slot(site, n);
    var sites' := sites[at := site];
    forall i: SlotIndex | sites'[i] != 0 ensures Placed(sites', i) {
      if i == at {
        assert Passed(sites', site, n);
      } else {
        assert Placed(sites, i);
        var m: nat :| m < TRAMPOLINE_CAPACITY && Slot(sites[i], m) == i && Passed(sites, sites[i], m);
        assert site != sites[i] by {
          NoOtherHome(sites, i, m, site, n);
        }
        assert Passed(sites', sites'[i], m);
      }
    }
  }

  /** A site already placed is met before any gap on its probe path. */
  lemma NoOtherHome(sites: seq<nat>, i: SlotIndex, m: nat, site: nat, n: nat)
    requires |sites| == TRAMPOLINE_CAPACITY && sites[i] != 0 && Slot(sites[i], m) == i && Passed(sites, sites[i], m)
    requires site != 0 && Passed(sites, site, n) && sites[Slot(site, n)] == 0
    ensures site != sites[i]
  {
  }

  lemma StepWritesOnce(s: State, e: Event)
    requires Enabled(s, e) && Inv(s)
    ensures Shaped(After(s, e)) && WriteOnce(s.sites, After(s, e).sites) && WriteOnce(s.targets, After(s, e).targets)
  {
  }

  lemma StepKeepsSlots(s: State, e: Event)
    requires Enabled(s, e) && Inv(s)
    ensures var s' := After(s, e); Shaped(s') && SlotsInv(s'.sites, s'.targets, s'.pages)
  {
    hide Placed, Passed, Slot;
    if e.Claim? {
      assert LookupInv(s.sites, s.targets, s.lookups[e.t]);
      if s.sites[Slot(s.lookups[e.t].site, s.lookups[e.t].pc.gap)] == 0 {
        ClaimKeepsSlots(s.sites, s.targets, s.pages, s.lookups[e.t].site, s.lookups[e.t].pc.gap);
      }
    } else if e.Publish? {
      assert LookupInv(s.sites, s.targets, s.lookups[e.t]);
    }
  }

  lemma StepKeepsOwnLookup(s: State, e: Event)
    requires Enabled(s, e) && Inv(s)
    ensures var s' := After(s, e); Shaped(s') && LookupInv(s'.sites, s'.targets, s'.lookups[e.t])
  {
    hide Placed;
    if !e.Begin? {
      assert LookupInv(s.sites, s.targets, s.lookups[e.t]);
    }
  }

  lemma StepKeepsPrivate(s: State, e: Event)
    requires Enabled(s, e) && Inv(s)
    ensures var s' := After(s, e); PrivateInv(s'.targets, s'.pages, s'.lookups)
  {
    hide LookupInv, Passed, Placed, Slot;
    var s' := After(s, e);
    forall u | u in s'.lookups && Private(s'.lookups[u].pc).Some?
      ensures Unpublished(s'.targets, s'.pages, Private(s'.lookups[u].pc).value, s'.lookups[u].site)
    {
      if u != e.t {
        assert Unpublished(s.targets, s.pages, Private(s.lookups[u].pc).value, s.lookups[u].site);
      }
    }
  }

  lemma StepKeepsInv(s: State, e: Event)
    requires Enabled(s, e) && Inv(s)
    ensures Inv(After(s, e))
  {
    StepWritesOnce(s, e);
    StepKeepsSlots(s, e);
    StepKeepsOwnLookup(s, e);
    StepKeepsPrivate(s, e);
    var s' := After(s, e);
    forall u | u in s'.lookups ensures LookupInv(s'.sites, s'.targets, s'.lookups[u]) {
      if u != e.t {
        LookupStable(s.sites, s.targets, s'.sites, s'.targets, s.lookups[u]);
      }
    }
  }

  lemma {:induction false} RunKeepsInv(states: seq<State>, events: seq<Event>, n: nat)
    requires IsRun(states, events) && n <= |events|
    ensures Inv(states[n])
  {
    hide Enabled, After;
    if n > 0 {
      RunKeepsInv(states, events, n - 1);
      StepKeepsInv(states[n - 1], events[n - 1]);
    }
  }

  /** Over any stretch of a run, a claimed site and a published target never change again. */
  lemma {:induction false} RunWritesOnce(states: seq<State>, events: seq<Event>, m: nat, n: nat)
    requires IsRun(states, events) && m <= n <= |events|
    ensures WriteOnce(states[m].sites, states[n].sites) && WriteOnce(states[m].targets, states[n].targets)
    decreases n - m
  {
    hide Inv, Enabled, After;
    if m < n {
      RunWritesOnce(states, events, m, n - 1);
      RunKeepsInv(states, events, n - 1);
      StepWritesOnce(states[n - 1], events[n - 1]);
    }
  }

  lemma OneHome(sites: seq<nat>, i: SlotIndex, j: SlotIndex)
    requires |sites| == TRAMPOLINE_CAPACITY && Placed(sites, i) && Placed(sites, j) && sites[i] == sites[j] != 0
    ensures i == j
  {
    var m: nat :| m < TRAMPOLINE_CAPACITY && Slot(sites[i], m) == i && Passed(sites, sites[i], m);
    var n: nat :| n < TRAMPOLINE_CAPACITY && Slot(sites[j], n) == j && Passed(sites, sites[j], n);
  }

  /** In every interleaving a site occupies at most one slot. */
  lemma OneSlotPerSite(states: seq<State>, events: seq<Event>, n: nat, i: SlotIndex, j: SlotIndex)
    requires IsRun(states, events) && n <= |events|
    requires |states[n].sites| == TRAMPOLINE_CAPACITY && states[n].sites[i] == states[n].sites[j] != 0
    ensures i == j
  {
    RunKeepsInv(states, events, n);
    OneHome(states[n].sites, i, j);
  }

  /** Two lookups of one site, however far apart, answer with the same page; it was built for that
      site and is still mapped. */
  lemma LookupsAgree(states: seq<State>, events: seq<Event>, m: nat, t: nat, n: nat, u: nat)
    requires IsRun(states, events) && m <= n <= |events|
    requires t in states[m].lookups && states[m].lookups[t].pc.Found?
    requires u in states[n].lookups && states[n].lookups[u].pc.Found?
    requires states[m].lookups[t].site == states[n].lookups[u].site
    ensures states[m].lookups[t].pc.target == states[n].lookups[u].pc.target
    ensures var target := states[m].lookups[t].pc.target;
            target in states[n].pages && states[n].pages[target] == states[m].lookups[t].site
  {
    RunKeepsInv(states, events, m);
    RunKeepsInv(states, events, n);
    RunWritesOnce(states, events, m, n);
    FoundAt(states[m], t);
    FoundAt(states[n], u);
    var i: SlotIndex :| states[m].sites[i] == states[m].lookups[t].site
        && states[m].targets[i] == states[m].lookups[t].pc.target;
    var j: SlotIndex :| states[n].sites[j] == states[n].lookups[u].site
        && states[n].targets[j] == states[n].lookups[u].pc.target;
    OneHome(states[n].sites, i, j);
  }

  lemma FoundAt(s: State, t: nat)
    requires Inv(s) && t in s.lookups && s.lookups[t].pc.Found?
    ensures Published(s.sites, s.targets, s.lookups[t].site, s.lookups[t].pc.target) && s.lookups[t].site != 0
  {
    assert LookupInv(s.sites, s.targets, s.lookups[t]);
  }

  /** Every slot lies on every probe path. */
  lemma ProbeCovers(site: nat, i: SlotIndex) returns (n: nat)
    ensures n < TRAMPOLINE_CAPACITY && Slot(site, n) == i
  {
    var first := site / 2 % TRAMPOLINE_CAPACITY;
    n := if i >= first then i - first else i + TRAMPOLINE_CAPACITY - first;
  }

  /** A lookup gives up for lack of space only when all slots hold different sites, none of them its own. */
  lemma NoSpaceMeansFull(states: seq<State>, events: seq<Event>, n: nat, t: nat)
    requires IsRun(states, events) && n <= |events| && t in states[n].lookups && states[n].lookups[t].pc.NoSpace?
    ensures var sites := states[n].sites;
            && |sites| == TRAMPOLINE_CAPACITY
            && (forall i: SlotIndex :: sites[i] != 0 && sites[i] != states[n].lookups[t].site)
            && (forall i: SlotIndex, j: SlotIndex :: sites[i] == sites[j] ==> i == j)
  {
    RunKeepsInv(states, events, n);
    var sites, site := states[n].sites, states[n].lookups[t].site;
    assert LookupInv(sites, states[n].targets, states[n].lookups[t]);
    forall i: SlotIndex ensures sites[i] != 0 && sites[i] != site {
      var k := ProbeCovers(site, i);
    }
    forall i: SlotIndex, j: SlotIndex | sites[i] == sites[j] ensures i == j {
      OneSlotPerSite(states, events, n, i, j);
    }
  }

  /** Events `b` to `n` are part of one lookup of thread `t`. */
  predicate OneLookup(events: seq<Event>, b: nat, n: nat, t: nat)
    requires b < n <= |events|
  {
    && events[b].Begin? && events[b].t == t
    && forall x :: b < x < n ==> !(events[x].Begin? && events[x].t == t)
  }

  lemma FailStep(s: State, e: Event, t: nat)
    requires Enabled(s, e) && t in s.lookups && !(e.Begin? && e.t == t)
    ensures var s' := After(s, e);
            && t in s'.lookups && s'.lookups[t].site == s.lookups[t].site
            && (s'.lookups[t].pc == Failed <==> s.lookups[t].pc == Failed || e == Build(t, None))
  {
    hide Slot;
  }

  /** A lookup fails if and only if the address behind its site overflows or its own mapping fails. */
  lemma {:induction false} FailedIff(states: seq<State>, events: seq<Event>, b: nat, n: nat, t: nat)
    requires IsRun(states, events) && b < n <= |events| && OneLookup(events, b, n, t)
    ensures t in states[n].lookups && states[n].lookups[t].site == events[b].site
    ensures states[n].lookups[t].pc == Failed <==>
            events[b].site + 2 >= 0x1_0000_0000_0000_0000 || exists k :: b < k < n && events[k] == Build(t, None)
    decreases n
  {
    if n > b + 1 {
      hide Enabled, After;
      FailedIff(states, events, b, n - 1, t);
      FailStep(states[n - 1], events[n - 1], t);
    }
  }

  /** Where a lookup of a site whose slot `i` already holds target `x` can be. */
  predicate Heading(l: Lookup, x: nat) {
    l.pc.Probing? || l.pc.Claiming? || l.pc.ReadTarget? || l.pc == Found(x)
  }

  lemma HeadingStep(s: State, e: Event, t: nat, i: SlotIndex, x: nat)
    requires Inv(s) && Enabled(s, e) && t in s.lookups && !(e.Begin? && e.t == t) && Heading(s.lookups[t], x)
    requires s.sites[i] == s.lookups[t].site && s.targets[i] == x != 0
    ensures t in After(s, e).lookups && Heading(After(s, e).lookups[t], x)
  {
    hide Slot, PrivateInv, Placed;
    assert LookupInv(s.sites, s.targets, s.lookups[t]);
    if e == Load(t) {
      var m := ProbeCovers(s.lookups[t].site, i);
    } else if e == LoadTarget(t) {
      OneHome(s.sites, i, s.lookups[t].pc.index);
    }
  }

  /** A lookup of a site whose trampoline is already published finds exactly that one. */
  lemma {:induction false} PublishedIsFound(states: seq<State>, events: seq<Event>, b: nat, n: nat, t: nat,
                                            i: SlotIndex)
    requires IsRun(states, events) && b < n <= |events| && OneLookup(events, b, n, t)
    requires |states[b].sites| == |states[b].targets| == TRAMPOLINE_CAPACITY
    requires states[b].sites[i] == events[b].site && states[b].targets[i] != 0 && events[b].site + 2 < ADDRESS_SPACE
    ensures t in states[n].lookups && Heading(states[n].lookups[t], states[b].targets[i])
    ensures Finished(states[n].lookups[t].pc) ==> states[n].lookups[t].pc == Found(states[b].targets[i])
    decreases n
  {
    if n > b + 1 {
      hide Enabled, After, Inv;
      PublishedIsFound(states, events, b, n - 1, t, i);
      FailedIff(states, events, b, n - 1, t);
      RunKeepsInv(states, events, n - 1);
      RunWritesOnce(states, events, b, n - 1);
      StillPublished(states[b], states[n - 1], i);
      HeadingStep(states[n - 1], events[n - 1], t, i, states[b].targets[i]);
    }
  }

  lemma StillPublished(s: State, s': State, i: SlotIndex)
    requires Shaped(s) && Inv(s') && WriteOnce(s.sites, s'.sites) && WriteOnce(s.targets, s'.targets)
    requires s.sites[i] != 0 && s.targets[i] != 0
    ensures Shaped(s') && s'.sites[i] == s.sites[i] && s'.targets[i] == s.targets[i]
  {
  }

  /** Every mapped page is published, or still in the hands of an unfinished lookup: none leaks. */
  ghost predicate Accounted(s: State) {
    0 !in s.pages && forall page :: page in s.pages ==> page in s.targets || HeldPage(s.lookups, page)
  }

  ghost predicate HeldPage(lookups: map<nat, Lookup>, page: nat) {
    exists t :: t in lookups && Private(lookups[t].pc) == Some(page)
  }

  lemma AccountedStep(s: State, e: Event)
    requires Inv(s) && Enabled(s, e) && Accounted(s)
    ensures Accounted(After(s, e))
  {
    hide Inv, Slot, ProbeStep;
    var s' := After(s, e);
    StepWritesOnce(s, e);
    ProbesAreEmptyHanded(s, e);
    TargetsGrow(s, e);
    forall page | page in s'.pages && page !in s'.targets ensures HeldPage(s'.lookups, page) {
      if e.Build? && e.mapping == Some(page) {
        assert Private(s'.lookups[e.t].pc) == Some(page);
      } else {
        assert page in s.pages && page !in s.targets;
        assert HeldPage(s.lookups, page);
        var u :| u in s.lookups && Private(s.lookups[u].pc) == Some(page);
        assert u in s'.lookups && Private(s'.lookups[u].pc) == Some(page);
      }
    }
  }

  lemma TargetsGrow(s: State, e: Event)
    requires Inv(s) && Enabled(s, e)
    ensures forall page :: page in s.targets && page != 0 ==> page in After(s, e).targets
    ensures e.Publish? ==> var pc := s.lookups[e.t].pc; s.targets[pc.slot] == 0 ==> pc.page in After(s, e).targets
  {
    hide Inv, Slot, ProbeStep;
    var s' := After(s, e);
    StepWritesOnce(s, e);
    forall page | page in s.targets && page != 0 ensures page in s'.targets {
      var i :| 0 <= i < |s.targets| && s.targets[i] == page;
      assert s'.targets[i] == page;
    }
    if e.Publish? {
      var pc := s.lookups[e.t].pc;
      assert s.targets[pc.slot] == 0 ==> s'.targets[pc.slot] == pc.page;
    }
  }

  lemma ProbesAreEmptyHanded(s: State, e: Event)
    requires Enabled(s, e)
    ensures e.Load? ==> Private(After(s, e).lookups[e.t].pc) == None == Private(s.lookups[e.t].pc)
  {
    hide Slot;
  }

  lemma {:induction false} NoPageLeaks(states: seq<State>, events: seq<Event>, n: nat)
    requires IsRun(states, events) && n <= |events|
    ensures Accounted(states[n])
  {
    hide Enabled, After, Inv;
    if n > 0 {
      NoPageLeaks(states, events, n - 1);
      RunKeepsInv(states, events, n - 1);
      AccountedStep(states[n - 1], events[n - 1]);
    }
  }

  /** An upper bound on the steps a lookup still has to make if nobody interferes. */
  function Rank(pc: Pc): nat {
    match pc
    case Probing(n) => 10 + 2 * (if n <= TRAMPOLINE_CAPACITY then TRAMPOLINE_CAPACITY - n else 0)
    case Claiming(n) => 9 + 2 * (if n <= TRAMPOLINE_CAPACITY then TRAMPOLINE_CAPACITY - n else 0)
    case ReadTarget(_) => 4
    case Building(_) => 3
    case Publishing(_, _) => 2
    case Discarding(_, _) => 1
    case _ => 0
  }

  /** Every step of a lookup brings it closer to its end, except a claim that another lookup beat:
      lookups can only be held up by others making progress. */
  lemma LookupsAdvance(states: seq<State>, events: seq<Event>, n: nat)
    requires IsRun(states, events) && n < |events| && !events[n].Begin?
    ensures Shaped(states[n]) && events[n].t in states[n].lookups && events[n].t in states[n + 1].lookups
    ensures var l := states[n].lookups[events[n].t];
            || Rank(states[n + 1].lookups[events[n].t].pc) < Rank(l.pc)
            || (events[n].Claim? && states[n].sites[Slot(l.site, l.pc.gap)] != 0)
  {
    hide Slot, Passed, SlotsInv, PrivateInv;
    RunKeepsInv(states, events, n);
    assert LookupInv(states[n].sites, states[n].targets, states[n].lookups[events[n].t]);
  }
}
