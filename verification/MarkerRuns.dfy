/**
 The Route/Replay marker table under every interleaving: threads arm markers from the dispatcher
 bridge, consume them at the SIGSYS boundary and cancel them, all over one shared slot table.
 Each access to a slot word or to the active counter is one step; the saved registers of a slot,
 which only the marker's own thread ever touches, are one cell.
 */
module MarkerSpec {
  import opened Common

  datatype Context = Context(xmm4: nat, xmm5: nat, r11: nat, eflags: nat)

  /** A live marker: its raw syscall address and, once routed, the registers to restore. */
  datatype Mark = Mark(rip: nat, routed: Option<Context>)

  /** One thread's live markers by stack value. */
  type Marks = map<nat, Mark>

  /** `Dispatch` is one dispatcher-bridge call; `arms` when it decides to replay the call raw. */
  datatype Job =
    | Dispatch(stack: nat, arms: bool, rip: nat)
    | Consume(stack: nat, rip: nat, context: Context)
    | Cancel(stack: nat, rip: nat)

  /** `Declined` when the bridge call does not want to arm, `Full` when it does and finds no free slot. */
  datatype Result = Armed | Declined | Full | Route | Replay(context: Context) | Nothing

  /** The markers of callers deeper than `stack`, which have not returned. */
  function Above(marks: Marks, stack: nat): Marks {
    map k | k in marks && k > stack :: marks[k]
  }

  predicate Has(marks: Marks, stack: nat, rip: nat) { stack in marks && marks[stack].rip == rip }

  /** What a job may answer and leave behind, seen by its own thread alone. */
  predicate Allowed(job: Job, before: Marks, result: Result, after: Marks) {
    match job
    case Dispatch(stack, arms, rip) =>
      if !arms then result == Declined && after == Above(before, stack)
      else
        || (result == Armed && after == Above(before, stack)[stack := Mark(rip, None)])
        || (result == Full && after == Above(before, stack))
    case Consume(stack, rip, context) =>
      if !Has(before, stack, rip) then result == Nothing && after == before
      else if before[stack].routed.None? then result == Route && after == before[stack := Mark(rip, Some(context))]
      else result == Replay(before[stack].routed.value) && after == before - {stack}
    case Cancel(stack, rip) =>
      result == Nothing && after == if Has(before, stack, rip) then before - {stack} else before
  }
}

module MarkerRuns {
  import opened Common
  import opened MarkerSpec

  const MARKER_CAPACITY: nat := 256
  const RESERVED: nat := 0xffff_ffff_ffff_ffff

  type SlotIndex = i: nat | i < MARKER_CAPACITY

  datatype Slot = Slot(stack: nat, tid: nat, rip: nat, phase: nat, saved: Context)

  /** What follows a release: the retire loop at slot `n`, or the end of the job. */
  datatype Then = NextSlot(n: nat) | Finish(result: Result)

  datatype Pc =
    | DispatchCheck
    | RetireCheck | RetireTid(n: nat) | RetireStack(i: SlotIndex) | RetireAgain(i: SlotIndex, recorded: nat)
    | Probe(n: nat) | Count(i: SlotIndex) | StoreTid(i: SlotIndex) | StoreRip(i: SlotIndex) | StorePhase(i: SlotIndex)
    | Publish(i: SlotIndex)
    | FindCheck | FindStack(n: nat) | FindTid(n: nat) | FindRip(n: nat)
    | ClaimRoute(i: SlotIndex) | SaveContext(i: SlotIndex) | ClaimReplay(i: SlotIndex) | LoadContext(i: SlotIndex)
    | RelCas(i: SlotIndex, recorded: nat, next: Then)
    | RelTid(i: SlotIndex, next: Then) | RelRip(i: SlotIndex, next: Then) | RelPhase(i: SlotIndex, next: Then)
    | RelSaved(i: SlotIndex, next: Then) | RelStack(i: SlotIndex, next: Then) | RelCount(next: Then)
    | Done(result: Result)

  /** `start` is what the thread's markers were when the job began. */
  datatype Thread = Thread(job: Job, pc: Pc, start: Marks)

  /** `marks` is the history variable the proof is about: each thread's live markers, changed when a
      marker is published, routed or taken out of the table. */
  datatype State = State(slots: seq<Slot>, active: nat, marks: map<nat, Marks>, threads: map<nat, Thread>)

  datatype Event = Begin(t: nat, job: Job) | Step(t: nat)

  const Blank := Context(0, 0, 0, 0)

  predicate Shaped(slots: seq<Slot>) { |slots| == MARKER_CAPACITY }

  predicate Init(s: State) {
    && Shaped(s.slots) && s.active == 0 && s.marks == map[] && s.threads == map[]
    && forall i: SlotIndex :: s.slots[i] == Slot(0, 0, 0, 0, Blank)
  }

  function ProbeSlot(stack: nat, n: nat): SlotIndex { (stack / 16 % MARKER_CAPACITY + n) % MARKER_CAPACITY }

  function MarksOf(s: State, t: nat): Marks { if t in s.marks then s.marks[t] else map[] }

  function PcOf(s: State, t: nat): Pc { if t in s.threads then s.threads[t].pc else Done(Nothing) }

  function StartPc(job: Job): Pc {
    match job
    case Dispatch(_, _, _) => DispatchCheck
    case Consume(stack, rip, _) => if stack == 0 || rip == 0 then Done(Nothing) else FindCheck
    case Cancel(_, _) => FindCheck
  }

  /** Thread ids and bridge stacks are non-zero; no stack pointer equals the reservation value. */
  predicate Enabled(s: State, e: Event) {
    && Shaped(s.slots) && e.t != 0
    && match e
       case Begin(t, job) =>
         && PcOf(s, t).Done? && job.stack != RESERVED
         && (job.Dispatch? ==> job.stack != 0 && job.rip != 0)
       case Step(t) => t in s.threads && !s.threads[t].pc.Done?
  }

  /** The part of the state a thread's step may touch. */
  datatype View = View(slots: seq<Slot>, active: nat, mine: Marks, pc: Pc)

  function Put(v: View, i: SlotIndex, slot: Slot, pc: Pc): View
    requires Shaped(v.slots)
  {
    v.(slots := v.slots[i := slot], pc := pc)
  }

  function Resume(next: Then): Pc { match next case NextSlot(n) => RetireTid(n) case Finish(result) => Done(result) }

  /** Retiring, reserving and publishing. */
  function DispatchStep(t: nat, job: Job, v: View): View
    requires Shaped(v.slots) && job.Dispatch?
  {
    var arming := if job.arms then Probe(0) else Done(Declined);
    match v.pc
    case DispatchCheck => v.(pc := if v.active == 0 then arming else RetireCheck)
    case RetireCheck => v.(pc := if v.active == 0 then arming else RetireTid(0))
    case RetireTid(n) =>
      v.(pc := if n >= MARKER_CAPACITY then arming
               else if v.slots[n].tid != t then RetireTid(n + 1) else RetireStack(n))
    case RetireStack(i) => v.(pc := RetireAgain(i, v.slots[i].stack))
    case RetireAgain(i, recorded) =>
      if recorded == 0 || recorded == RESERVED || recorded > job.stack || v.slots[i].tid != t then
        v.(pc := RetireTid(i + 1))
      else v.(pc := RelCas(i, recorded, NextSlot(i + 1)))
    case Probe(n) =>
      if n >= MARKER_CAPACITY then v.(pc := Done(Full))
      else
        var i := ProbeSlot(job.stack, n);
        if v.slots[i].stack != 0 then v.(pc := Probe(n + 1)) else Put(v, i, v.slots[i].(stack := RESERVED), Count(i))
    case Count(i) => v.(active := v.active + 1, pc := StoreTid(i))
    case StoreTid(i) => Put(v, i, v.slots[i].(tid := t), StoreRip(i))
    case StoreRip(i) => Put(v, i, v.slots[i].(rip := job.rip), StorePhase(i))
    case StorePhase(i) => Put(v, i, v.slots[i].(phase := 0), Publish(i))
    case Publish(i) =>
      Put(v, i, v.slots[i].(stack := job.stack), Done(Armed)).(mine := v.mine[job.stack := Mark(job.rip, None)])
    case _ => ReleaseStep(v)
  }

  /** Finding, routing and replaying. */
  function ConsumeStep(t: nat, job: Job, v: View): View
    requires Shaped(v.slots) && !job.Dispatch?
  {
    match v.pc
    case FindCheck => v.(pc := if v.active == 0 then Done(Nothing) else FindStack(0))
    case FindStack(n) =>
      v.(pc := if n >= MARKER_CAPACITY then Done(Nothing)
               else if v.slots[ProbeSlot(job.stack, n)].stack == job.stack then FindTid(n) else FindStack(n + 1))
    case FindTid(n) => v.(pc := if v.slots[ProbeSlot(job.stack, n)].tid == t then FindRip(n) else FindStack(n + 1))
    case FindRip(n) =>
      var i := ProbeSlot(job.stack, n);
      v.(pc := if v.slots[i].rip != job.rip then FindStack(n + 1)
               else if job.Consume? then ClaimRoute(i) else RelCas(i, job.stack, Finish(Nothing)))
    case ClaimRoute(i) =>
      if v.slots[i].phase != 0 || !job.Consume? then v.(pc := ClaimReplay(i))
      else
        var routed := Mark(job.rip, Some(job.context));
        Put(v, i, v.slots[i].(phase := 1), SaveContext(i)).(mine := v.mine[job.stack := routed])
    case SaveContext(i) =>
      Put(v, i, v.slots[i].(saved := if job.Consume? then job.context else Blank), Done(Route))
    case ClaimReplay(i) =>
      if v.slots[i].phase != 1 then v.(pc := RelCas(i, job.stack, Finish(Nothing)))
      else Put(v, i, v.slots[i].(phase := 2), LoadContext(i))
    case LoadContext(i) => v.(pc := RelCas(i, job.stack, Finish(Replay(v.slots[i].saved))))
    case _ => ReleaseStep(v)
  }

  /** `release_marker`, word by word. */
  function ReleaseStep(v: View): View
    requires Shaped(v.slots)
  {
    match v.pc
    case RelCas(i, recorded, next) =>
      if v.slots[i].stack != recorded then v.(pc := Resume(next))
      else Put(v, i, v.slots[i].(stack := RESERVED), RelTid(i, next)).(mine := v.mine - {recorded})
    case RelTid(i, next) => Put(v, i, v.slots[i].(tid := 0), RelRip(i, next))
    case RelRip(i, next) => Put(v, i, v.slots[i].(rip := 0), RelPhase(i, next))
    case RelPhase(i, next) => Put(v, i, v.slots[i].(phase := 0), RelSaved(i, next))
    case RelSaved(i, next) => Put(v, i, v.slots[i].(saved := Blank), RelStack(i, next))
    case RelStack(i, next) => Put(v, i, v.slots[i].(stack := 0), RelCount(next))
    case RelCount(next) => v.(active := if v.active == 0 then 0xffff_ffff else v.active - 1, pc := Resume(next))
    case _ => v
  }

  function StepOf(t: nat, job: Job, v: View): View
    requires Shaped(v.slots)
  {
    if job.Dispatch? then DispatchStep(t, job, v) else ConsumeStep(t, job, v)
  }

  function After(s: State, e: Event): State
    requires Enabled(s, e)
  {
    match e
    case Begin(t, job) => s.(threads := s.threads[t := Thread(job, StartPc(job), MarksOf(s, t))])
    case Step(t) =>
      var th := s.threads[t];
      var v := StepOf(t, th.job, View(s.slots, s.active, MarksOf(s, t), th.pc));
      State(v.slots, v.active, s.marks[t := v.mine], s.threads[t := th.(pc := v.pc)])
  }

  ghost predicate IsRun(states: seq<State>, events: seq<Event>) {
    && |states| == |events| + 1
    && Init(states[0])
    && forall i :: 0 <= i < |events| ==> Enabled(states[i], events[i]) && states[i + 1] == After(states[i], events[i])
  }

  predicate Published(slot: Slot) { slot.stack != 0 && slot.stack != RESERVED }

  /** The slot a thread has reserved, for arming or for clearing. */
  function Held(pc: Pc): Option<nat> {
    match pc
    case Count(i) => Some(i) case StoreTid(i) => Some(i) case StoreRip(i) => Some(i)
    case StorePhase(i) => Some(i) case Publish(i) => Some(i)
    case RelTid(i, _) => Some(i) case RelRip(i, _) => Some(i) case RelPhase(i, _) => Some(i)
    case RelSaved(i, _) => Some(i) case RelStack(i, _) => Some(i)
    case _ => None
  }

  /** The slot whose phase and saved registers its thread is changing. */
  function Busy(pc: Pc): Option<nat> {
    match pc
    case SaveContext(i) => Some(i)
    case LoadContext(i) => Some(i)
    case RelCas(i, _, Finish(_)) => Some(i)
    case _ => None
  }

  predicate PhaseAgrees(slot: Slot, mark: Mark) {
    || (slot.phase == 0 && mark.routed.None?)
    || (slot.phase == 1 && mark.routed == Some(slot.saved))
  }

  /** A slot tagged with thread `t` is `t`'s: reserved by it, or one of its live markers. */
  predicate TaggedInv(t: nat, slot: Slot, held: bool, busy: bool, mine: Marks) {
    slot.tid == t && !held ==>
      && Published(slot) && slot.stack in mine && mine[slot.stack].rip == slot.rip
      && (!busy ==> PhaseAgrees(slot, mine[slot.stack]))
  }

  /** The slot is one of thread `t`'s live markers. */
  predicate Live(t: nat, slots: seq<Slot>, held: Option<nat>, i: SlotIndex)
    requires Shaped(slots)
  {
    slots[i].tid == t && held != Some(i)
  }

  predicate OneSlotPerStack(t: nat, slots: seq<Slot>, held: Option<nat>)
    requires Shaped(slots)
  {
    forall i: SlotIndex, j: SlotIndex ::
      Live(t, slots, held, i) && Live(t, slots, held, j) && slots[i].stack == slots[j].stack ==> i == j
  }

  ghost predicate Stored(t: nat, slots: seq<Slot>, held: Option<nat>, stack: nat)
    requires Shaped(slots)
  {
    exists i: SlotIndex :: Live(t, slots, held, i) && slots[i].stack == stack
  }

  predicate HeldInv(t: nat, slots: seq<Slot>, held: Option<nat>)
    requires Shaped(slots)
  {
    held.Some? && held.value < MARKER_CAPACITY ==>
      slots[held.value].stack == RESERVED && (slots[held.value].tid == 0 || slots[held.value].tid == t)
  }

  /** Thread `t`'s slots and thread `t`'s markers are the same thing. */
  ghost predicate OwnInv(t: nat, slots: seq<Slot>, mine: Marks, held: Option<nat>, busy: Option<nat>)
    requires Shaped(slots)
  {
    && (forall i: SlotIndex :: TaggedInv(t, slots[i], held == Some(i), busy == Some(i), mine))
    && OneSlotPerStack(t, slots, held)
    && (forall k :: k in mine ==> mine[k].rip != 0 && Stored(t, slots, held, k))
    && HeldInv(t, slots, held)
  }

  /** Slots below `n` keep none of `t`'s markers at or below `stack`. */
  predicate Cleared(t: nat, slots: seq<Slot>, stack: nat, n: nat)
    requires Shaped(slots)
  {
    n <= MARKER_CAPACITY && forall i: SlotIndex :: i < n && slots[i].tid == t ==> slots[i].stack > stack
  }

  /** Retiring has dropped only markers at or below `stack`. */
  predicate Retiring(start: Marks, mine: Marks, stack: nat) {
    && (forall k :: k in mine ==> k in start && mine[k] == start[k])
    && (forall k :: k in start && k > stack ==> k in mine)
  }

  predicate Match(t: nat, slot: Slot, job: Job) { slot.tid == t && slot.stack == job.stack && slot.rip == job.rip }

  predicate NotFound(t: nat, slots: seq<Slot>, job: Job, n: nat)
    requires Shaped(slots)
  {
    n <= MARKER_CAPACITY && forall p: nat :: p < n ==> !Match(t, slots[ProbeSlot(job.stack, p)], job)
  }

  predicate Arming(job: Job, start: Marks, mine: Marks)
    requires job.Dispatch?
  {
    job.arms && mine == Above(start, job.stack)
  }

  /** Where a dispatcher call has got to. */
  predicate DispatchInv(t: nat, job: Job, pc: Pc, start: Marks, slots: seq<Slot>, mine: Marks)
    requires Shaped(slots) && job.Dispatch?
  {
    && job.stack != 0 && job.stack != RESERVED && job.rip != 0
    && match pc
       case DispatchCheck => mine == start
       case RetireCheck => mine == start
       case RetireTid(n) => Retiring(start, mine, job.stack) && Cleared(t, slots, job.stack, n)
       case RetireStack(i) => Retiring(start, mine, job.stack) && Cleared(t, slots, job.stack, i) && slots[i].tid == t
       case RetireAgain(i, recorded) =>
         && Retiring(start, mine, job.stack) && Cleared(t, slots, job.stack, i)
         && slots[i].tid == t && slots[i].stack == recorded
       case RelCas(i, recorded, NextSlot(n)) =>
         && Retiring(start, mine, job.stack) && Cleared(t, slots, job.stack, i) && n == i + 1
         && slots[i].tid == t && slots[i].stack == recorded <= job.stack
       case RelTid(i, NextSlot(n)) => n == i + 1 && Retiring(start, mine, job.stack) && Cleared(t, slots, job.stack, i)
       case RelRip(i, NextSlot(n)) => Clearing(t, job, start, slots, mine, i, n)
       case RelPhase(i, NextSlot(n)) => Clearing(t, job, start, slots, mine, i, n)
       case RelSaved(i, NextSlot(n)) => Clearing(t, job, start, slots, mine, i, n)
       case RelStack(i, NextSlot(n)) => Clearing(t, job, start, slots, mine, i, n)
       case RelCount(NextSlot(n)) => Retiring(start, mine, job.stack) && Cleared(t, slots, job.stack, n)
       case Probe(n) => Arming(job, start, mine)
       case Count(i) => Arming(job, start, mine) && slots[i].tid == 0
       case StoreTid(i) => Arming(job, start, mine) && slots[i].tid == 0
       case StoreRip(i) => Arming(job, start, mine) && slots[i].tid == t
       case StorePhase(i) => Arming(job, start, mine) && slots[i].tid == t && slots[i].rip == job.rip
       case Publish(i) =>
         Arming(job, start, mine) && slots[i].tid == t && slots[i].rip == job.rip && slots[i].phase == 0
       case Done(result) => Allowed(job, start, result, mine)
       case _ => false
  }

  predicate Clearing(t: nat, job: Job, start: Marks, slots: seq<Slot>, mine: Marks, i: SlotIndex, n: nat)
    requires Shaped(slots)
  {
    n == i + 1 && Retiring(start, mine, job.stack) && Cleared(t, slots, job.stack, i) && slots[i].tid == 0
  }

  /** Where a consume or cancel has got to. */
  predicate ConsumeInv(t: nat, job: Job, pc: Pc, start: Marks, slots: seq<Slot>, mine: Marks)
    requires Shaped(slots) && !job.Dispatch?
  {
    && job.stack != RESERVED
    && match pc
       case FindCheck => mine == start
       case FindStack(n) => mine == start && NotFound(t, slots, job, n)
       case FindTid(n) =>
         && n < MARKER_CAPACITY && mine == start && NotFound(t, slots, job, n)
         && (slots[ProbeSlot(job.stack, n)].tid == t ==> slots[ProbeSlot(job.stack, n)].stack == job.stack)
       case FindRip(n) =>
         && n < MARKER_CAPACITY && mine == start && NotFound(t, slots, job, n)
         && slots[ProbeSlot(job.stack, n)].tid == t && slots[ProbeSlot(job.stack, n)].stack == job.stack
       case ClaimRoute(i) => mine == start && Match(t, slots[i], job) && job.Consume?
       case ClaimReplay(i) => mine == start && Match(t, slots[i], job) && job.Consume? && slots[i].phase != 0
       case SaveContext(i) =>
         && Match(t, slots[i], job) && job.Consume? && slots[i].phase == 1
         && Allowed(job, start, Route, mine)
       case LoadContext(i) =>
         && mine == start && Match(t, slots[i], job) && job.Consume?
         && Has(start, job.stack, job.rip) && start[job.stack].routed == Some(slots[i].saved)
       case RelCas(i, recorded, Finish(result)) =>
         && mine == start && Match(t, slots[i], job) && recorded == job.stack
         && Allowed(job, start, result, start - {job.stack})
       case RelTid(_, Finish(result)) => Allowed(job, start, result, mine)
       case RelRip(i, Finish(result)) => slots[i].tid == 0 && Allowed(job, start, result, mine)
       case RelPhase(i, Finish(result)) => slots[i].tid == 0 && Allowed(job, start, result, mine)
       case RelSaved(i, Finish(result)) => slots[i].tid == 0 && Allowed(job, start, result, mine)
       case RelStack(i, Finish(result)) => slots[i].tid == 0 && Allowed(job, start, result, mine)
       case RelCount(Finish(result)) => Allowed(job, start, result, mine)
       case Done(result) => Allowed(job, start, result, mine)
       case _ => false
  }

  predicate JobInv(t: nat, th: Thread, slots: seq<Slot>, mine: Marks)
    requires Shaped(slots)
  {
    if th.job.Dispatch? then DispatchInv(t, th.job, th.pc, th.start, slots, mine)
    else ConsumeInv(t, th.job, th.pc, th.start, slots, mine)
  }

  predicate SlotsInv(slots: seq<Slot>)
    requires Shaped(slots)
  {
    forall i: SlotIndex :: (slots[i].stack == 0 ==> slots[i].tid == 0) && (Published(slots[i]) ==> slots[i].tid != 0)
  }

  /** What a step of `t` may change: free slots, the slot it holds, its own slots. */
  predicate Touches(t: nat, pc: Pc, slots: seq<Slot>, slots': seq<Slot>)
    requires Shaped(slots) && Shaped(slots')
  {
    forall i: SlotIndex :: slots'[i] != slots[i] ==>
      && (slots[i].tid == 0 || slots[i].tid == t) && (slots'[i].tid == 0 || slots'[i].tid == t)
      && (Held(pc) == Some(i) || slots[i].stack == 0 || slots[i].tid == t)
  }

  /** The facts of one thread, before or after its step. */
  ghost predicate Local(t: nat, job: Job, start: Marks, v: View) {
    && t != 0 && Shaped(v.slots) && SlotsInv(v.slots)
    && OwnInv(t, v.slots, v.mine, Held(v.pc), Busy(v.pc))
    && JobInv(t, Thread(job, v.pc, start), v.slots, v.mine)
  }

  /** One of `t`'s slots, as its markers see it. */
  lemma OwnSlot(t: nat, slots: seq<Slot>, mine: Marks, held: Option<nat>, busy: Option<nat>, i: SlotIndex)
    requires Shaped(slots) && OwnInv(t, slots, mine, held, busy) && Live(t, slots, held, i)
    ensures Published(slots[i]) && slots[i].stack in mine && mine[slots[i].stack].rip == slots[i].rip
    ensures busy != Some(i) ==> PhaseAgrees(slots[i], mine[slots[i].stack])
  {
    assert TaggedInv(t, slots[i], held == Some(i), busy == Some(i), mine);
  }

  /** Turning attention to a marker needs nothing. */
  lemma OwnKept(t: nat, slots: seq<Slot>, mine: Marks, held: Option<nat>, busy': Option<nat>)
    requires Shaped(slots) && OwnInv(t, slots, mine, held, None)
    ensures OwnInv(t, slots, mine, held, busy')
  {
    forall i: SlotIndex ensures TaggedInv(t, slots[i], held == Some(i), busy' == Some(i), mine) {
      assert TaggedInv(t, slots[i], held == Some(i), false, mine);
    }
  }

  /** Writing a reserved slot, reserving a free one, or freeing a cleared one touches no marker. */
  lemma OwnUntagged(t: nat, slots: seq<Slot>, mine: Marks, held: Option<nat>, i: SlotIndex, slot: Slot,
                    held': Option<nat>)
    requires t != 0 && Shaped(slots) && OwnInv(t, slots, mine, held, None)
    requires held == Some(i) || (held.None? && slots[i].tid == 0)
    requires || (held' == Some(i) && slot.stack == RESERVED && (slot.tid == 0 || slot.tid == t))
             || (held'.None? && slot.tid == 0)
    ensures OwnInv(t, slots[i := slot], mine, held', None)
  {
    var slots' := slots[i := slot];
    assert forall j: SlotIndex :: Live(t, slots', held', j) <==> Live(t, slots, held, j);
    assert forall j: SlotIndex :: Live(t, slots, held, j) ==> slots'[j] == slots[j];
    forall j: SlotIndex ensures TaggedInv(t, slots'[j], held' == Some(j), false, mine) {
      assert TaggedInv(t, slots[j], held == Some(j), false, mine);
    }
    forall k | k in mine ensures Stored(t, slots', held', k) {
      assert Stored(t, slots, held, k);
    }
  }

  /** Publishing a marker at a stack value the thread does not use yet. */
  lemma OwnPublish(t: nat, slots: seq<Slot>, mine: Marks, i: SlotIndex, slot: Slot)
    requires t != 0 && Shaped(slots) && OwnInv(t, slots, mine, Some(i), None)
    requires slot.tid == t && Published(slot) && slot.phase == 0 && slot.rip != 0 && slot.stack !in mine
    ensures OwnInv(t, slots[i := slot], mine[slot.stack := Mark(slot.rip, None)], None, None)
  {
    var slots', mine' := slots[i := slot], mine[slot.stack := Mark(slot.rip, None)];
    assert forall j: SlotIndex :: Live(t, slots', None, j) <==> Live(t, slots, Some(i), j) || j == i;
    forall j: SlotIndex ensures TaggedInv(t, slots'[j], false, false, mine')
                        ensures Live(t, slots, Some(i), j) ==> slots'[j].stack != slot.stack
    {
      assert TaggedInv(t, slots[j], Some(j) == Some(i), false, mine);
    }
    forall k | k in mine' ensures Stored(t, slots', None, k) {
      if k == slot.stack {
        assert Live(t, slots', None, i);
      } else {
        assert Stored(t, slots, Some(i), k);
        var j: SlotIndex :| Live(t, slots, Some(i), j) && slots[j].stack == k;
        assert Live(t, slots', None, j) && slots'[j].stack == k;
      }
    }
  }

  /** Taking a marker out of the table. */
  lemma OwnTake(t: nat, slots: seq<Slot>, mine: Marks, busy: Option<nat>, i: SlotIndex)
    requires t != 0 && Shaped(slots) && OwnInv(t, slots, mine, None, busy) && slots[i].tid == t
    requires busy.None? || busy == Some(i)
    ensures OwnInv(t, slots[i := slots[i].(stack := RESERVED)], mine - {slots[i].stack}, Some(i), None)
  {
    var slots', mine' := slots[i := slots[i].(stack := RESERVED)], mine - {slots[i].stack};
    assert Live(t, slots, None, i);
    assert forall j: SlotIndex :: Live(t, slots', Some(i), j) <==> Live(t, slots, None, j) && j != i;
    forall j: SlotIndex ensures TaggedInv(t, slots'[j], Some(j) == Some(i), false, mine') {
      assert TaggedInv(t, slots[j], false, busy == Some(j), mine);
      assert j != i && slots[j].tid == t ==> Live(t, slots, None, j);
    }
    forall k | k in mine' ensures Stored(t, slots', Some(i), k) {
      assert Stored(t, slots, None, k);
      var j: SlotIndex :| Live(t, slots, None, j) && slots[j].stack == k;
      assert Live(t, slots', Some(i), j) && slots'[j].stack == k;
    }
  }

  /** Changing the phase or the saved registers of a marker. */
  lemma OwnRephase(t: nat, slots: seq<Slot>, mine: Marks, busy: Option<nat>, i: SlotIndex, slot: Slot, mark: Mark,
                   busy': Option<nat>)
    requires t != 0 && Shaped(slots) && OwnInv(t, slots, mine, None, busy) && slots[i].tid == t
    requires (busy.None? || busy == Some(i)) && (busy'.None? || busy' == Some(i))
    requires slot.tid == t && slot.stack == slots[i].stack && slot.rip == slots[i].rip == mark.rip
    requires busy'.None? ==> PhaseAgrees(slot, mark)
    ensures OwnInv(t, slots[i := slot], mine[slot.stack := mark], None, busy')
  {
    OwnSlot(t, slots, mine, None, busy, i);
    var slots', mine' := slots[i := slot], mine[slot.stack := mark];
    assert forall j: SlotIndex :: Live(t, slots', None, j) <==> Live(t, slots, None, j);
    assert forall j: SlotIndex :: slots'[j].stack == slots[j].stack;
    forall j: SlotIndex ensures TaggedInv(t, slots'[j], false, busy' == Some(j), mine') {
      assert TaggedInv(t, slots[j], false, busy == Some(j), mine);
      assert slots[j].tid == t && slots[j].stack == slot.stack ==> Live(t, slots, None, j) && Live(t, slots, None, i);
    }
    forall k | k in mine' ensures Stored(t, slots', None, k) {
      assert Stored(t, slots, None, k);
    }
  }

  predicate Releasing(pc: Pc) {
    pc.RelCas? || pc.RelTid? || pc.RelRip? || pc.RelPhase? || pc.RelSaved? || pc.RelStack? || pc.RelCount?
  }

  /** With no published slot the thread has no marker. */
  predicate Quiet(v: View)
    requires Shaped(v.slots)
  {
    v.active == 0 ==> forall i: SlotIndex :: !Published(v.slots[i])
  }

  /** The slot that stores a marker. */
  lemma SlotOf(t: nat, slots: seq<Slot>, mine: Marks, held: Option<nat>, busy: Option<nat>, k: nat)
    returns (i: SlotIndex)
    requires Shaped(slots) && OwnInv(t, slots, mine, held, busy) && k in mine
    ensures slots[i].tid == t && slots[i].stack == k && Published(slots[i]) && slots[i].rip == mine[k].rip
  {
    assert Stored(t, slots, held, k);
    i :| Live(t, slots, held, i) && slots[i].stack == k;
    OwnSlot(t, slots, mine, held, busy, i);
  }

  lemma NothingLive(t: nat, slots: seq<Slot>, mine: Marks, held: Option<nat>, busy: Option<nat>)
    requires Shaped(slots) && OwnInv(t, slots, mine, held, busy) && forall i: SlotIndex :: !Published(slots[i])
    ensures mine == map[]
  {
    hide OwnInv, Published;
    forall k | k in mine ensures exists i: SlotIndex :: Published(slots[i]) {
      var i := SlotOf(t, slots, mine, held, busy, k);
    }
  }

  /** Once every slot is cleared, exactly the markers above `stack` are left. */
  lemma RetiredAll(t: nat, slots: seq<Slot>, start: Marks, mine: Marks, stack: nat)
    requires Shaped(slots) && OwnInv(t, slots, mine, None, None)
    requires Retiring(start, mine, stack) && Cleared(t, slots, stack, MARKER_CAPACITY)
    ensures mine == Above(start, stack)
  {
    hide OwnInv;
    forall k | k in mine ensures k > stack {
      var i := SlotOf(t, slots, mine, None, None, k);
    }
  }

  /** The probe visits every slot. */
  lemma ProbeReaches(stack: nat, i: SlotIndex) returns (n: nat)
    ensures n < MARKER_CAPACITY && ProbeSlot(stack, n) == i
  {
    n := (i + MARKER_CAPACITY - stack / 16 % MARKER_CAPACITY) % MARKER_CAPACITY;
  }

  lemma FoundNowhere(t: nat, slots: seq<Slot>, mine: Marks, job: Job)
    requires Shaped(slots) && OwnInv(t, slots, mine, None, None) && NotFound(t, slots, job, MARKER_CAPACITY)
    ensures !Has(mine, job.stack, job.rip)
  {
    hide OwnInv, ProbeSlot;
    if job.stack in mine {
      var i := SlotOf(t, slots, mine, None, None, job.stack);
      var n := ProbeReaches(job.stack, i);
      assert !Match(t, slots[ProbeSlot(job.stack, n)], job);
    }
  }

  lemma HeldFacts(t: nat, v: View)
    requires Shaped(v.slots) && OwnInv(t, v.slots, v.mine, Held(v.pc), Busy(v.pc)) && Held(v.pc).Some?
    ensures Held(v.pc).value < MARKER_CAPACITY
    ensures var slot := v.slots[Held(v.pc).value]; slot.stack == RESERVED && (slot.tid == 0 || slot.tid == t)
  {
  }

  /** Filling in a reserved slot and publishing it keep slots and markers the same thing. */
  lemma ArmOwn(t: nat, job: Job, start: Marks, v: View)
    requires Local(t, job, start, v) && job.Dispatch?
        && (v.pc.StoreTid? || v.pc.StoreRip? || v.pc.StorePhase? || v.pc.Publish?)
    ensures var v' := DispatchStep(t, job, v);
            Shaped(v'.slots) && OwnInv(t, v'.slots, v'.mine, Held(v'.pc), Busy(v'.pc))
  {
    hide OwnInv, SlotsInv, Cleared, Retiring, ProbeSlot;
    HeldFacts(t, v);
    var i: SlotIndex := Held(v.pc).value;
    var slot := DispatchStep(t, job, v).slots[i];
    if v.pc.Publish? {
      OwnPublish(t, v.slots, v.mine, i, slot);
    } else {
      OwnUntagged(t, v.slots, v.mine, Some(i), i, slot, Some(i));
    }
  }

  /** So do the other dispatcher steps before a release. */
  lemma DispatchOwn(t: nat, job: Job, start: Marks, v: View)
    requires Local(t, job, start, v) && job.Dispatch? && !v.pc.Done? && !Releasing(v.pc)
    ensures var v' := DispatchStep(t, job, v);
            Shaped(v'.slots) && OwnInv(t, v'.slots, v'.mine, Held(v'.pc), Busy(v'.pc))
  {
    hide OwnInv, Cleared, Retiring, ProbeSlot, Above;
    if v.pc.StoreTid? || v.pc.StoreRip? || v.pc.StorePhase? || v.pc.Publish? {
      ArmOwn(t, job, start, v);
    } else {
      var v' := DispatchStep(t, job, v);
      assert Busy(v.pc) == None && Busy(v'.pc) == None;
      if v.pc.Probe? && v'.pc.Count? {
        OwnUntagged(t, v.slots, v.mine, None, v'.pc.i, v'.slots[v'.pc.i], Held(v'.pc));
      }
    }
  }

  /** So do the steps of finding, routing and replaying. */
  lemma ConsumeOwn(t: nat, job: Job, start: Marks, v: View)
    requires Local(t, job, start, v) && !job.Dispatch? && !v.pc.Done? && !Releasing(v.pc)
    ensures var v' := ConsumeStep(t, job, v);
            Shaped(v'.slots) && OwnInv(t, v'.slots, v'.mine, Held(v'.pc), Busy(v'.pc))
  {
    hide OwnInv, NotFound, ProbeSlot;
    var v' := ConsumeStep(t, job, v);
    match v.pc {
      case FindRip(n) => OwnKept(t, v.slots, v.mine, None, Busy(v'.pc));
      case ClaimRoute(i) =>
        if v'.pc.SaveContext? {
          OwnRephase(t, v.slots, v.mine, None, i, v'.slots[i], Mark(job.rip, Some(job.context)), Some(i));
        }
      case SaveContext(i) =>
        OwnRephase(t, v.slots, v.mine, Some(i), i, v'.slots[i], v.mine[job.stack], None);
        assert v.mine[job.stack := v.mine[job.stack]] == v.mine;
      case ClaimReplay(i) =>
        OwnSlot(t, v.slots, v.mine, None, None, i);
        OwnRephase(t, v.slots, v.mine, None, i, v'.slots[i], v.mine[job.stack], Some(i));
        assert v.mine[job.stack := v.mine[job.stack]] == v.mine;
      case _ =>
    }
  }

  /** So do the steps of a release. */
  lemma ReleaseOwn(t: nat, job: Job, start: Marks, v: View)
    requires Local(t, job, start, v) && Releasing(v.pc)
    ensures var v' := ReleaseStep(v);
            Shaped(v'.slots) && OwnInv(t, v'.slots, v'.mine, Held(v'.pc), Busy(v'.pc))
  {
    hide OwnInv, Cleared, Retiring, Allowed;
    var v' := ReleaseStep(v);
    assert Busy(v'.pc) == None;
    if v.pc.RelCas? {
      assert v.slots[v.pc.i].tid == t && v.slots[v.pc.i].stack == v.pc.recorded;
      OwnTake(t, v.slots, v.mine, Busy(v.pc), v.pc.i);
    } else if !v.pc.RelCount? {
      HeldFacts(t, v);
      var i: SlotIndex := Held(v.pc).value;
      OwnUntagged(t, v.slots, v.mine, Some(i), i, v'.slots[i], Held(v'.pc));
    }
  }

  /** A dispatcher call leaves exactly what it promises. */
  lemma DispatchJob(t: nat, job: Job, start: Marks, v: View)
    requires Local(t, job, start, v) && Quiet(v) && job.Dispatch? && !v.pc.Done? && !Releasing(v.pc)
    ensures var v' := DispatchStep(t, job, v);
            Shaped(v'.slots) && DispatchInv(t, job, v'.pc, start, v'.slots, v'.mine)
  {
    hide OwnInv, ProbeSlot;
    if v.pc.DispatchCheck? || v.pc.RetireCheck? || v.pc.RetireTid? || v.pc.RetireStack? || v.pc.RetireAgain? {
      RetireJob(t, job, start, v);
    } else {
      hide Above, Cleared, Retiring;
      assert v.pc.Publish? ==> v.mine == Above(start, job.stack);
    }
  }

  lemma RetireJob(t: nat, job: Job, start: Marks, v: View)
    requires Local(t, job, start, v) && Quiet(v) && job.Dispatch?
    requires v.pc.DispatchCheck? || v.pc.RetireCheck? || v.pc.RetireTid? || v.pc.RetireStack? || v.pc.RetireAgain?
    ensures var v' := DispatchStep(t, job, v);
            Shaped(v'.slots) && DispatchInv(t, job, v'.pc, start, v'.slots, v'.mine)
  {
    hide OwnInv, SlotsInv, ProbeSlot;
    if (v.pc.DispatchCheck? || v.pc.RetireCheck?) && v.active == 0 {
      NothingLive(t, v.slots, v.mine, None, None);
      assert v.mine == Above(start, job.stack);
    } else if v.pc.RetireTid? && v.pc.n >= MARKER_CAPACITY {
      RetiredAll(t, v.slots, start, v.mine, job.stack);
    } else if v.pc.RetireAgain? {
      OwnSlot(t, v.slots, v.mine, None, None, v.pc.i);
    }
  }

  lemma ConsumeJob(t: nat, job: Job, start: Marks, v: View)
    requires Local(t, job, start, v) && Quiet(v) && !job.Dispatch? && !v.pc.Done? && !Releasing(v.pc)
    ensures var v' := ConsumeStep(t, job, v);
            Shaped(v'.slots) && ConsumeInv(t, job, v'.pc, start, v'.slots, v'.mine)
  {
    hide OwnInv, ProbeSlot;
    var v' := ConsumeStep(t, job, v);
    match v.pc {
      case FindCheck => if v.active == 0 { NothingLive(t, v.slots, v.mine, None, None); }
      case FindStack(n) => if n >= MARKER_CAPACITY { FoundNowhere(t, v.slots, v.mine, job); }
      case FindRip(n) => OwnSlot(t, v.slots, v.mine, None, None, ProbeSlot(job.stack, n));
      case ClaimRoute(i) => OwnSlot(t, v.slots, v.mine, None, None, i);
      case ClaimReplay(i) => OwnSlot(t, v.slots, v.mine, None, None, i);
      case _ =>
    }
  }

  lemma ReleaseJob(t: nat, job: Job, start: Marks, v: View)
    requires Local(t, job, start, v) && Releasing(v.pc)
    ensures var v' := ReleaseStep(v);
            Shaped(v'.slots) && JobInv(t, Thread(job, v'.pc, start), v'.slots, v'.mine)
  {
    hide OwnInv, Allowed;
    var v' := ReleaseStep(v);
  }

  /** A slot newly held was not reserved by anybody. */
  predicate FreshHold(pc: Pc, pc': Pc, slots: seq<Slot>)
    requires Shaped(slots)
  {
    forall i: SlotIndex :: Held(pc') == Some(i) && Held(pc) != Some(i) ==> slots[i].stack != RESERVED
  }

  predicate Polite(t: nat, v: View, v': View)
    requires Shaped(v.slots)
  {
    Shaped(v'.slots) && SlotsInv(v'.slots) && Touches(t, v.pc, v.slots, v'.slots) && FreshHold(v.pc, v'.pc, v.slots)
  }

  lemma DispatchPolite(t: nat, job: Job, start: Marks, v: View)
    requires Local(t, job, start, v) && job.Dispatch? && !v.pc.Done? && !Releasing(v.pc)
    ensures Polite(t, v, DispatchStep(t, job, v))
  {
    hide OwnInv, ProbeSlot, Above, Cleared, Retiring;
    if Held(v.pc).Some? { HeldFacts(t, v); }
  }

  lemma ConsumePolite(t: nat, job: Job, start: Marks, v: View)
    requires Local(t, job, start, v) && !job.Dispatch? && !v.pc.Done? && !Releasing(v.pc)
    ensures Polite(t, v, ConsumeStep(t, job, v))
  {
    hide OwnInv, ProbeSlot, NotFound, Allowed;
  }

  lemma ReleasePolite(t: nat, job: Job, start: Marks, v: View)
    requires Local(t, job, start, v) && Releasing(v.pc)
    ensures Polite(t, v, ReleaseStep(v))
  {
    hide OwnInv, Cleared, Retiring, Allowed;
    if Held(v.pc).Some? { HeldFacts(t, v); }
    if v.pc.RelCas? { OwnSlot(t, v.slots, v.mine, None, Busy(v.pc), v.pc.i); }
  }

  /** A thread's step keeps its own facts and disturbs nobody's slots. */
  lemma LocalStep(t: nat, job: Job, start: Marks, v: View)
    requires Local(t, job, start, v) && Quiet(v) && !v.pc.Done?
    ensures var v' := StepOf(t, job, v); Local(t, job, start, v') && Polite(t, v, v')
  {
    hide OwnInv, SlotsInv, DispatchInv, ConsumeInv, Polite;
    if Releasing(v.pc) {
      ReleaseOwn(t, job, start, v);
      ReleaseJob(t, job, start, v);
      ReleasePolite(t, job, start, v);
    } else if job.Dispatch? {
      DispatchOwn(t, job, start, v);
      DispatchJob(t, job, start, v);
      DispatchPolite(t, job, start, v);
    } else {
      ConsumeOwn(t, job, start, v);
      ConsumeJob(t, job, start, v);
      ConsumePolite(t, job, start, v);
    }
    PoliteSlots(t, v, StepOf(t, job, v));
  }

  lemma PoliteSlots(t: nat, v: View, v': View)
    requires Shaped(v.slots) && Polite(t, v, v')
    ensures Shaped(v'.slots) && SlotsInv(v'.slots)
  {
  }

  /** Nothing thread `u` can see of its own has changed. */
  predicate Undisturbed(u: nat, held: Option<nat>, slots: seq<Slot>, slots': seq<Slot>)
    requires Shaped(slots) && Shaped(slots')
  {
    forall i: SlotIndex :: slots[i].tid == u || slots'[i].tid == u || held == Some(i) ==> slots'[i] == slots[i]
  }

  lemma OwnUndisturbed(u: nat, slots: seq<Slot>, slots': seq<Slot>, mine: Marks, held: Option<nat>, busy: Option<nat>)
    requires Shaped(slots) && Shaped(slots') && OwnInv(u, slots, mine, held, busy)
        && Undisturbed(u, held, slots, slots')
    ensures OwnInv(u, slots', mine, held, busy)
  {
    assert forall i: SlotIndex :: Live(u, slots', held, i) <==> Live(u, slots, held, i);
    assert forall i: SlotIndex :: Live(u, slots, held, i) ==> slots'[i] == slots[i];
    forall i: SlotIndex ensures TaggedInv(u, slots'[i], held == Some(i), busy == Some(i), mine) {
      assert TaggedInv(u, slots[i], held == Some(i), busy == Some(i), mine);
    }
    forall k | k in mine ensures Stored(u, slots', held, k) {
      assert Stored(u, slots, held, k);
    }
  }

  lemma JobUndisturbed(u: nat, th: Thread, slots: seq<Slot>, slots': seq<Slot>, mine: Marks)
    requires Shaped(slots) && Shaped(slots') && JobInv(u, th, slots, mine) && Undisturbed(u, Held(th.pc), slots, slots')
    ensures JobInv(u, th, slots', mine)
  {
    hide Allowed, Retiring, Above, ProbeSlot;
  }

  /** A polite step of `t` does not disturb another thread. */
  lemma OthersUndisturbed(t: nat, u: nat, v: View, v': View, mine: Marks, pc: Pc)
    requires t != u && t != 0 && u != 0 && Shaped(v.slots) && Polite(t, v, v')
    requires HeldInv(u, v.slots, Held(pc)) && (Held(pc).Some? ==> Held(v.pc) != Held(pc))
    ensures Undisturbed(u, Held(pc), v.slots, v'.slots)
    ensures Held(pc).Some? ==> Held(v'.pc) != Held(pc)
  {
  }

  /** The published slots. */
  function Visible(slots: seq<Slot>): set<nat>
    requires Shaped(slots)
  {
    set i: nat | i < MARKER_CAPACITY && Published(slots[i])
  }

  /** Where the active counter already, or still, includes a slot that is not published. */
  predicate Counted(pc: Pc) {
    pc.StoreTid? || pc.StoreRip? || pc.StorePhase? || pc.Publish? || (Releasing(pc) && !pc.RelCas?)
  }

  function Slack(v: View): int
    requires Shaped(v.slots)
  {
    v.active - |Visible(v.slots)| - One(Counted(v.pc))
  }

  lemma VisiblePut(slots: seq<Slot>, i: SlotIndex, slot: Slot)
    requires Shaped(slots)
    ensures |Visible(slots[i := slot])| + One(Published(slots[i])) == |Visible(slots)| + One(Published(slot))
  {
    var rest := Visible(slots) - {i};
    assert Visible(slots) == rest + if Published(slots[i]) then {i} else {};
    assert Visible(slots[i := slot]) == rest + if Published(slot) then {i} else {};
  }

  /** The slot a step writes. */
  function Written(job: Job, v: View): SlotIndex {
    match v.pc
    case Probe(n) => ProbeSlot(job.stack, n)
    case StoreTid(i) => i case StoreRip(i) => i case StorePhase(i) => i case Publish(i) => i
    case ClaimRoute(i) => i case SaveContext(i) => i case ClaimReplay(i) => i
    case RelCas(i, _, _) => i case RelTid(i, _) => i case RelRip(i, _) => i case RelPhase(i, _) => i
    case RelSaved(i, _) => i case RelStack(i, _) => i
    case _ => 0
  }

  lemma WritesOne(t: nat, job: Job, v: View)
    requires Shaped(v.slots)
    ensures var v', i := StepOf(t, job, v), Written(job, v);
            Shaped(v'.slots) && v'.slots == v.slots[i := v'.slots[i]]
  {
    hide ProbeSlot;
  }

  predicate Balanced(v: View, v': View, i: SlotIndex)
    requires Shaped(v.slots) && Shaped(v'.slots)
  {
    v'.active + One(Published(v.slots[i])) + One(Counted(v.pc)) ==
        v.active + One(Published(v'.slots[i])) + One(Counted(v'.pc))
  }

  lemma ReleaseBalanced(t: nat, job: Job, start: Marks, v: View)
    requires Local(t, job, start, v) && Releasing(v.pc) && v.active >= One(Counted(v.pc))
    ensures Shaped(ReleaseStep(v).slots) && Balanced(v, ReleaseStep(v), Written(job, v))
  {
    hide OwnInv, Cleared, Retiring, Allowed;
    if Held(v.pc).Some? { HeldFacts(t, v); }
    if v.pc.RelCas? { OwnSlot(t, v.slots, v.mine, None, Busy(v.pc), v.pc.i); }
  }

  lemma OtherBalanced(t: nat, job: Job, start: Marks, v: View)
    requires Local(t, job, start, v) && !v.pc.Done? && !Releasing(v.pc) && v.active >= One(Counted(v.pc))
    ensures Shaped(StepOf(t, job, v).slots) && Balanced(v, StepOf(t, job, v), Written(job, v))
  {
    hide OwnInv, ProbeSlot, Above, Cleared, Retiring, NotFound, Allowed;
    if Held(v.pc).Some? { HeldFacts(t, v); }
  }

  /** A published slot appears or vanishes only against the counter's book-keeping. */
  lemma SlackStep(t: nat, job: Job, start: Marks, v: View)
    requires Local(t, job, start, v) && !v.pc.Done? && v.active >= One(Counted(v.pc))
    ensures Shaped(StepOf(t, job, v).slots) && Slack(StepOf(t, job, v)) == Slack(v)
  {
    hide OwnInv, JobInv, SlotsInv, Visible, Counted, Written;
    var i := Written(job, v);
    WritesOne(t, job, v);
    VisiblePut(v.slots, i, StepOf(t, job, v).slots[i]);
    if Releasing(v.pc) { ReleaseBalanced(t, job, start, v); } else { OtherBalanced(t, job, start, v); }
  }

  /** Threads the active counter includes beside the published slots. */
  function Pending(threads: map<nat, Thread>): set<nat> {
    set t | t in threads && Counted(threads[t].pc)
  }

  lemma PendingAt(threads: map<nat, Thread>, t: nat)
    ensures t in Pending(threads) <==> t in threads && Counted(threads[t].pc)
  {
  }

  lemma PendingPut(threads: map<nat, Thread>, t: nat, th: Thread)
    ensures |Pending(threads[t := th])| + One(t in Pending(threads)) == |Pending(threads)| + One(Counted(th.pc))
  {
    hide Counted, Pending;
    var threads' := threads[t := th];
    var before, after := Pending(threads), Pending(threads');
    forall u: nat ensures u in before - {t} <==> u in after - {t} {
      PendingAt(threads, u);
      PendingAt(threads', u);
    }
    assert before - {t} == after - {t};
    PendingAt(threads', t);
    Without(before, t);
    Without(after, t);
  }

  ghost predicate ThreadInv(s: State, t: nat)
    requires Shaped(s.slots)
  {
    && OwnInv(t, s.slots, MarksOf(s, t), Held(PcOf(s, t)), Busy(PcOf(s, t)))
    && (t in s.threads ==> JobInv(t, s.threads[t], s.slots, MarksOf(s, t)))
  }

  predicate Apart(s: State, t: nat, u: nat) {
    t != u && Held(PcOf(s, t)).Some? ==> Held(PcOf(s, t)) != Held(PcOf(s, u))
  }

  ghost predicate Inv(s: State) {
    && Shaped(s.slots) && SlotsInv(s.slots)
    && 0 !in s.threads
    && (forall t: nat | t != 0 :: ThreadInv(s, t))
    && (forall t, u | t != 0 && u != 0 :: Apart(s, t, u))
    && s.active == |Visible(s.slots)| + |Pending(s.threads)|
  }

  function ViewOf(s: State, t: nat): View { View(s.slots, s.active, MarksOf(s, t), PcOf(s, t)) }

  lemma InitInv(s: State)
    requires Init(s)
    ensures Inv(s)
  {
    assert Visible(s.slots) == {} && Pending(s.threads) == {};
  }

  lemma ViewFacts(s: State, t: nat)
    requires Inv(s) && t in s.threads
    ensures Local(t, s.threads[t].job, s.threads[t].start, ViewOf(s, t)) && Quiet(ViewOf(s, t))
    ensures s.active >= One(Counted(s.threads[t].pc))
  {
    hide OwnInv, JobInv, SlotsInv;
    assert ThreadInv(s, t);
    assert Counted(s.threads[t].pc) ==> t in Pending(s.threads);
    forall i: SlotIndex | Published(s.slots[i]) ensures s.active > 0 {
      assert i in Visible(s.slots);
    }
  }

  /** One thread's step, seen by every thread. */
  lemma StepThreads(s: State, t: nat, u: nat)
    requires Inv(s) && Enabled(s, Step(t)) && u != 0
    ensures var s' := After(s, Step(t)); Shaped(s'.slots) && ThreadInv(s', u)
  {
    hide OwnInv, JobInv, SlotsInv, StepOf, Held, Busy, Polite;
    var th, v := s.threads[t], ViewOf(s, t);
    ViewFacts(s, t);
    LocalStep(t, th.job, th.start, v);
    var s' := After(s, Step(t));
    if u != t {
      assert ThreadInv(s, u) && Apart(s, u, t);
      HoldsReserved(s, u);
      var v' := StepOf(t, th.job, v);
      OthersUndisturbed(t, u, v, v', MarksOf(s, u), PcOf(s, u));
      OwnUndisturbed(u, s.slots, s'.slots, MarksOf(s, u), Held(PcOf(s, u)), Busy(PcOf(s, u)));
      if u in s.threads {
        JobUndisturbed(u, s.threads[u], s.slots, s'.slots, MarksOf(s, u));
      }
    }
  }

  lemma HoldsReserved(s: State, u: nat)
    requires Shaped(s.slots) && ThreadInv(s, u)
    ensures HeldInv(u, s.slots, Held(PcOf(s, u)))
  {
  }

  lemma StepApart(s: State, t: nat, u: nat, w: nat)
    requires Inv(s) && Enabled(s, Step(t)) && u != w && u != 0 && w != 0
    ensures Apart(After(s, Step(t)), u, w)
  {
    hide OwnInv, JobInv, SlotsInv, StepOf, Held, Polite;
    var th, v := s.threads[t], ViewOf(s, t);
    ViewFacts(s, t);
    LocalStep(t, th.job, th.start, v);
    assert Apart(s, u, w) && Apart(s, w, u);
    var o := if u == t then w else u;
    if u == t || w == t {
      assert ThreadInv(s, o);
      HoldsReserved(s, o);
      OthersUndisturbed(t, o, v, StepOf(t, th.job, v), MarksOf(s, o), PcOf(s, o));
    }
  }

  lemma StepKeepsInv(s: State, e: Event)
    requires Inv(s) && Enabled(s, e)
    ensures Inv(After(s, e))
  {
    hide Apart, SlotsInv, StepOf, Visible, Pending, Counted, Polite, Quiet;
    var t, s' := e.t, After(s, e);
    match e {
      case Begin(_, job) => BeginKeepsInv(s, t, job);
      case Step(_) =>
        var th, v := s.threads[t], ViewOf(s, t);
        ViewFacts(s, t);
        LocalStep(t, th.job, th.start, v);
        SlackStep(t, th.job, th.start, v);
        PendingPut(s.threads, t, s'.threads[t]);
        PendingAt(s.threads, t);
        forall u: nat | u != 0 ensures ThreadInv(s', u) {
          StepThreads(s, t, u);
        }
        forall u, w | u != 0 && w != 0 ensures Apart(s', u, w) {
          if u != w { StepApart(s, t, u, w); } else { SelfApart(s', u); }
        }
    }
  }

  lemma SelfApart(s: State, t: nat)
    ensures Apart(s, t, t)
  {
  }

  lemma BeginKeepsInv(s: State, t: nat, job: Job)
    requires Inv(s) && Enabled(s, Begin(t, job))
    ensures Inv(After(s, Begin(t, job)))
  {
    hide OwnInv, SlotsInv, Visible, Pending, Above;
    var s' := After(s, Begin(t, job));
    PendingPut(s.threads, t, s'.threads[t]);
    PendingAt(s.threads, t);
    forall u: nat | u != 0 ensures ThreadInv(s', u) {
      assert ThreadInv(s, u);
      if u == t && job.Consume? { NoZeroMarker(t, s.slots, MarksOf(s, t)); }
    }
    forall u, w | u != 0 && w != 0 ensures Apart(s', u, w) {
      assert Apart(s, u, w);
    }
  }

  /** No marker sits at stack 0 or names address 0. */
  lemma NoZeroMarker(t: nat, slots: seq<Slot>, mine: Marks)
    requires Shaped(slots) && OwnInv(t, slots, mine, None, None)
    ensures forall k :: k in mine ==> k != 0 && mine[k].rip != 0
  {
    forall k | k in mine ensures k != 0 {
      var i := SlotOf(t, slots, mine, None, None, k);
    }
  }

  lemma {:induction false} RunKeepsInv(states: seq<State>, events: seq<Event>, n: nat)
    requires IsRun(states, events) && n < |states|
    ensures Inv(states[n])
  {
    hide Inv, Enabled, After;
    if n == 0 {
      InitInv(states[0]);
    } else {
      RunKeepsInv(states, events, n - 1);
      StepKeepsInv(states[n - 1], events[n - 1]);
    }
  }

  /** The active counter never falls below the number of published slots, and when it is zero no
      thread has a live marker: the fast path hides nothing. */
  lemma CounterCoversMarkers(states: seq<State>, events: seq<Event>, n: nat, t: nat)
    requires IsRun(states, events) && n < |states| && t != 0
    ensures Shaped(states[n].slots) && states[n].active >= |Visible(states[n].slots)|
    ensures states[n].active == 0 ==> MarksOf(states[n], t) == map[]
  {
    hide OwnInv, SlotsInv, JobInv;
    RunKeepsInv(states, events, n);
    var s := states[n];
    assert ThreadInv(s, t);
    if s.active == 0 {
      forall i: SlotIndex ensures !Published(s.slots[i]) {
        assert i !in Visible(s.slots);
      }
      NothingLive(t, s.slots, MarksOf(s, t), Held(PcOf(s, t)), Busy(PcOf(s, t)));
    }
  }

  /** Whatever the other threads do meanwhile, a finished job has answered, and left of its thread's
      markers, what it would alone, except that an arming call may have found the table full. */
  lemma JobsAreIsolated(states: seq<State>, events: seq<Event>, n: nat, t: nat)
    requires IsRun(states, events) && n < |states| && t in states[n].threads && states[n].threads[t].pc.Done?
    ensures var th := states[n].threads[t]; Allowed(th.job, th.start, th.pc.result, MarksOf(states[n], t))
  {
    hide OwnInv, SlotsInv, Allowed;
    RunKeepsInv(states, events, n);
    assert ThreadInv(states[n], t);
  }

  /** From state `m` to state `n` thread `t` has been in one and the same job. */
  ghost predicate SameCall(states: seq<State>, events: seq<Event>, t: nat, m: nat, n: nat)
    requires m <= n <= |events| < |states|
  {
    && t in states[n].threads
    && (forall x :: m <= x <= n ==> t in states[x].threads && states[x].threads[t].job == states[n].threads[t].job)
    && (forall x :: m <= x < n ==> events[x].t == t ==> events[x].Step?)
  }

  predicate HasProbed(th: Thread, p: nat) {
    th.job.Dispatch? && ((th.pc.Probe? && p < th.pc.n) || (th.pc == Done(Full) && p < MARKER_CAPACITY))
  }

  /** No release of a dispatcher call leads to a probe. */
  lemma ReleaseIsNoProbe(t: nat, job: Job, start: Marks, v: View)
    requires Shaped(v.slots) && job.Dispatch? && DispatchInv(t, job, v.pc, start, v.slots, v.mine) && Releasing(v.pc)
    ensures !ReleaseStep(v).pc.Probe? && ReleaseStep(v).pc != Done(Full)
  {
    hide Cleared, Retiring, Above, Allowed;
  }

  lemma ProbeOwn(t: nat, job: Job, v: View, p: nat)
    requires Shaped(v.slots) && job.Dispatch? && !Releasing(v.pc) && !v.pc.Done?
    requires var pc := DispatchStep(t, job, v).pc; (pc.Probe? && p < pc.n) || (pc == Done(Full) && p < MARKER_CAPACITY)
    ensures v.pc.Probe? && (p < v.pc.n || (p == v.pc.n && v.slots[ProbeSlot(job.stack, p)].stack != 0))
  {
    hide ProbeSlot;
  }

  /** A probe moves on only past a taken slot. */
  lemma ProbeStep(s: State, e: Event, t: nat, p: nat)
    requires Enabled(s, e) && t in After(s, e).threads && HasProbed(After(s, e).threads[t], p)
    requires t in s.threads ==> JobInv(t, s.threads[t], s.slots, MarksOf(s, t))
    ensures e.t == t ==> e.Step?
    ensures t in s.threads && s.threads[t].job == After(s, e).threads[t].job
    ensures HasProbed(s.threads[t], p) ||
            (s.threads[t].pc == Probe(p) && s.slots[ProbeSlot(s.threads[t].job.stack, p)].stack != 0)
  {
    hide ProbeSlot, DispatchStep, ConsumeStep, ReleaseStep, DispatchInv, ConsumeInv;
    if e == Step(t) {
      var th, v := s.threads[t], ViewOf(s, t);
      if Releasing(th.pc) {
        ReleaseIsNoProbe(t, th.job, th.start, v);
        ReleasesAlike(t, th.job, v);
      } else {
        ProbeOwn(t, th.job, v, p);
      }
    }
  }

  lemma ReleasesAlike(t: nat, job: Job, v: View)
    requires Shaped(v.slots) && Releasing(v.pc)
    ensures StepOf(t, job, v) == ReleaseStep(v)
  {
    hide ReleaseStep, ProbeSlot;
  }

  lemma {:induction false} ProbedTaken(states: seq<State>, events: seq<Event>, n: nat, t: nat, p: nat) returns (m: nat)
    requires IsRun(states, events) && n <= |events| && t in states[n].threads && HasProbed(states[n].threads[t], p)
    ensures m < n && SameCall(states, events, t, m, n) && Shaped(states[m].slots)
    ensures states[m].slots[ProbeSlot(states[n].threads[t].job.stack, p)].stack != 0
  {
    hide Enabled, After, ProbeSlot, HasProbed;
    if n == 0 {
      assert false;
    } else {
      JobsKeepInv(states, events, n - 1, t);
      ProbeStep(states[n - 1], events[n - 1], t, p);
      if HasProbed(states[n - 1].threads[t], p) {
        m := ProbedTaken(states, events, n - 1, t, p);
      } else {
        m := n - 1;
      }
    }
  }

  lemma JobsKeepInv(states: seq<State>, events: seq<Event>, n: nat, t: nat)
    requires IsRun(states, events) && n < |states|
    ensures Shaped(states[n].slots)
    ensures t in states[n].threads ==> JobInv(t, states[n].threads[t], states[n].slots, MarksOf(states[n], t))
  {
    hide JobInv, OwnInv, SlotsInv;
    RunKeepsInv(states, events, n);
    assert t in states[n].threads ==> ThreadInv(states[n], t);
  }

  /** An arming call that gives up has seen every slot taken, each in some state of that very call. */
  lemma FullMeansEverySlotTaken(states: seq<State>, events: seq<Event>, n: nat, t: nat, i: SlotIndex) returns (m: nat)
    requires IsRun(states, events) && n <= |events| && t in states[n].threads
    requires states[n].threads[t].pc == Done(Full)
    ensures m < n && SameCall(states, events, t, m, n) && Shaped(states[m].slots) && states[m].slots[i].stack != 0
  {
    hide Enabled, After, ProbeSlot;
    JobsAreIsolated(states, events, n, t);
    var p := ProbeReaches(states[n].threads[t].job.stack, i);
    m := ProbedTaken(states, events, n, t, p);
  }

  lemma FullSawTaken(states: seq<State>, events: seq<Event>, b: nat, n: nat, t: nat, i: SlotIndex)
    requires IsRun(states, events) && b < n <= |events| && events[b].Begin? && events[b].t == t
    requires t in states[n].threads && states[n].threads[t].pc == Done(Full)
    ensures exists m :: b < m < n && Shaped(states[m].slots) && states[m].slots[i].stack != 0
  {
    hide Enabled, After;
    var m := FullMeansEverySlotTaken(states, events, n, t, i);
    assert b < m;
  }

  /** An arming call during which some slot stays free ends Armed. */
  lemma ArmsWhileASlotIsFree(states: seq<State>, events: seq<Event>, b: nat, n: nat, t: nat, i: SlotIndex)
    requires IsRun(states, events) && b < n <= |events|
    requires events[b].Begin? && events[b].t == t && events[b].job.Dispatch? && events[b].job.arms
    requires t in states[n].threads && states[n].threads[t].job == events[b].job && states[n].threads[t].pc.Done?
    requires forall x :: b < x <= n ==> Shaped(states[x].slots) && states[x].slots[i].stack == 0
    ensures states[n].threads[t].pc == Done(Armed)
  {
    hide Enabled, After;
    JobsAreIsolated(states, events, n, t);
    if states[n].threads[t].pc == Done(Full) {
      FullSawTaken(states, events, b, n, t, i);
    }
  }

  function Left(n: nat): nat { if n <= MARKER_CAPACITY then MARKER_CAPACITY - n else 0 }

  /** What is still to come after a release. */
  function ThenRank(next: Then): nat { match next case NextSlot(n) => 1000 + 12 * Left(n) case Finish(_) => 0 }

  /** An upper bound on the steps a job still has to make. */
  function Rank(pc: Pc): nat {
    match pc
    case DispatchCheck => 4074 case RetireCheck => 4073
    case RetireTid(n) => 1000 + 12 * Left(n)
    case RetireStack(i) => 1000 + 12 * Left(i) - 1
    case RetireAgain(i, _) => 1000 + 12 * Left(i) - 2
    case Probe(n) => 10 + Left(n)
    case Count(_) => 5 case StoreTid(_) => 4 case StoreRip(_) => 3 case StorePhase(_) => 2 case Publish(_) => 1
    case FindCheck => 869
    case FindStack(n) => 100 + 3 * Left(n)
    case FindTid(n) => 100 + 3 * Left(n) - 1
    case FindRip(n) => 100 + 3 * Left(n) - 2
    case ClaimRoute(_) => 30 case SaveContext(_) => 1 case ClaimReplay(_) => 29 case LoadContext(_) => 28
    case RelCas(_, _, next) => ThenRank(next) + 9
    case RelTid(_, next) => ThenRank(next) + 8
    case RelRip(_, next) => ThenRank(next) + 7
    case RelPhase(_, next) => ThenRank(next) + 6
    case RelSaved(_, next) => ThenRank(next) + 5
    case RelStack(_, next) => ThenRank(next) + 4
    case RelCount(next) => ThenRank(next) + 3
    case Done(_) => 0
  }

  lemma ReleaseRank(t: nat, job: Job, start: Marks, v: View)
    requires Local(t, job, start, v) && Releasing(v.pc)
    ensures Rank(ReleaseStep(v).pc) < Rank(v.pc)
  {
    hide OwnInv, JobInv, SlotsInv, Left;
  }

  predicate OfDispatch(pc: Pc) {
    || pc.DispatchCheck? || pc.RetireCheck? || pc.RetireTid? || pc.RetireStack? || pc.RetireAgain? || pc.Probe?
    || pc.Count? || pc.StoreTid? || pc.StoreRip? || pc.StorePhase? || pc.Publish?
  }

  lemma DispatchPcs(t: nat, job: Job, start: Marks, v: View)
    requires Local(t, job, start, v) && job.Dispatch? && !v.pc.Done? && !Releasing(v.pc)
    ensures OfDispatch(v.pc)
  {
    hide OwnInv, SlotsInv, Cleared, Retiring, Allowed, Above;
  }

  lemma DispatchRank(t: nat, job: Job, v: View)
    requires Shaped(v.slots) && job.Dispatch? && OfDispatch(v.pc)
    ensures Rank(DispatchStep(t, job, v).pc) < Rank(v.pc)
  {
    hide ProbeSlot;
  }

  lemma ConsumeRank(t: nat, job: Job, start: Marks, v: View)
    requires Local(t, job, start, v) && !job.Dispatch? && !v.pc.Done? && !Releasing(v.pc)
    ensures Rank(ConsumeStep(t, job, v).pc) < Rank(v.pc)
  {
    hide OwnInv, SlotsInv, ProbeSlot, Allowed, NotFound, Has;
  }

  lemma RankStep(t: nat, job: Job, start: Marks, v: View)
    requires Local(t, job, start, v) && !v.pc.Done?
    ensures Rank(StepOf(t, job, v).pc) < Rank(v.pc)
  {
    hide Rank, OwnInv, SlotsInv, DispatchInv, ConsumeInv;
    if Releasing(v.pc) {
      ReleaseRank(t, job, start, v);
    } else if job.Dispatch? {
      DispatchPcs(t, job, start, v);
      DispatchRank(t, job, v);
    } else {
      ConsumeRank(t, job, start, v);
    }
  }

  /** How many steps thread `t`'s present job has made. */
  function OwnSteps(events: seq<Event>, t: nat, n: nat): nat
    requires n <= |events|
  {
    if n == 0 || (events[n - 1].Begin? && events[n - 1].t == t) then 0
    else OwnSteps(events, t, n - 1) + One(events[n - 1].t == t)
  }

  /** Marker jobs are wait-free: whatever the other threads do, a job is done within 4074 steps of its
      own, and a consume or cancel within 869. */
  lemma {:induction false} JobsAreWaitFree(states: seq<State>, events: seq<Event>, n: nat, t: nat)
    requires IsRun(states, events) && n <= |events| && t in states[n].threads
    ensures OwnSteps(events, t, n) + Rank(states[n].threads[t].pc) <=
            if states[n].threads[t].job.Dispatch? then 4074 else 869
  {
    if n > 0 {
      hide Enabled, Rank, Inv, StepOf, Local, Quiet;
      var s, e := states[n - 1], events[n - 1];
      WaitFreeStep(s, e, t);
      if !(e.Begin? && e.t == t) {
        JobsAreWaitFree(states, events, n - 1, t);
        if e.t == t {
          RunKeepsInv(states, events, n - 1);
          ViewFacts(s, t);
          RankStep(t, s.threads[t].job, s.threads[t].start, ViewOf(s, t));
        }
      }
    }
  }

  lemma WaitFreeStep(s: State, e: Event, t: nat)
    requires Enabled(s, e) && t in After(s, e).threads
    ensures var th' := After(s, e).threads[t];
            if e.Begin? && e.t == t then Rank(th'.pc) <= if th'.job.Dispatch? then 4074 else 869
            else
              && t in s.threads && th'.job == s.threads[t].job
              && (e.t != t ==> th' == s.threads[t])
              && (e.t == t ==> !s.threads[t].pc.Done? && th'.pc == StepOf(t, s.threads[t].job, ViewOf(s, t)).pc)
  {
    hide StepOf;
  }
}
