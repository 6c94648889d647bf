/**
 The caller cache: a round-robin table of classified address ranges, each entry under its own 32-bit
 version word.  One inserter holds the try-lock; readers run against it word by word.
 */
module CallerCache {
  import opened Common

  const CALLER_CACHE_CAP: nat := 64
  const U32: nat := 0x1_0000_0000
  const HALF: nat := 0x8000_0000

  datatype Record = Record(start: nat, end: nat, kind: nat)

  const EMPTY := Record(0, 0, 0)

  type SlotIndex = i: nat | i < CALLER_CACHE_CAP

  datatype Slot = Slot(version: nat, record: Record)

  datatype Phase = Locked | Chosen | Opened | WroteStart | WroteEnd | WroteKind | Closed

  /** The lock holder: its record, its slot once chosen, and the version word it read there. */
  datatype Writer = Idle | Writer(record: Record, phase: Phase, slot: SlotIndex, version: nat)

  /** `first` and `last` count the inserts completed in the slot at a reader's two version loads. */
  datatype Pc =
    | AtSlot(index: nat)
    | SawVersion(i1: SlotIndex, v1: nat, first1: nat)
    | SawStart(i2: SlotIndex, v2: nat, first2: nat, start2: nat)
    | SawEnd(i3: SlotIndex, v3: nat, first3: nat, start3: nat, end3: nat)
    | SawKind(i4: SlotIndex, v4: nat, first4: nat, seen: Record)
    | Hit(slot: SlotIndex, first: nat, last: nat, found: Record)
    | Miss

  datatype Reader = Reader(address: nat, pc: Pc)

  /** `logs` records, per slot, every insert completed there. */
  datatype State = State(slots: seq<Slot>, next: nat, writer: Writer, logs: seq<seq<Record>>, readers: map<nat, Reader>)

  predicate Init(s: State) {
    && |s.slots| == |s.logs| == CALLER_CACHE_CAP && s.next == 0 && s.writer.Idle? && s.readers == map[]
    && forall i :: 0 <= i < CALLER_CACHE_CAP ==> s.slots[i] == Slot(0, EMPTY) && s.logs[i] == []
  }

  datatype Event =
    | Insert(record: Record)
    | WriterStep
    | Lookup(t: nat, address: nat)
    | ReaderStep(t: nat)

  predicate Shaped(s: State) { |s.slots| == |s.logs| == CALLER_CACHE_CAP }

  predicate Enabled(s: State, e: Event) {
    && Shaped(s)
    && match e
       case Insert(_) => s.writer.Idle?
       case WriterStep => s.writer.Writer?
       case Lookup(t, _) => t in s.readers ==> s.readers[t].pc.Hit? || s.readers[t].pc.Miss?
       case ReaderStep(t) => t in s.readers && !s.readers[t].pc.Hit? && !s.readers[t].pc.Miss?
  }

  function WithRecord(s: State, i: SlotIndex, r: Record): State
    requires Shaped(s)
  {
    s.(slots := s.slots[i := s.slots[i].(record := r)])
  }

  function WithVersion(s: State, i: SlotIndex, version: nat): State
    requires Shaped(s)
  {
    s.(slots := s.slots[i := s.slots[i].(version := version)])
  }

  /** `next` is only touched under the lock, so choosing the slot is one step. */
  function WriterAfter(s: State): State
    requires Shaped(s) && s.writer.Writer?
  {
    var w := s.writer;
    match w.phase
    case Locked =>
      var i := s.next % CALLER_CACHE_CAP;
      s.(next := i + 1, writer := w.(phase := Chosen, slot := i, version := s.slots[i].version))
    case Chosen => WithVersion(s, w.slot, (w.version + 1) % U32).(writer := w.(phase := Opened))
    case Opened =>
      WithRecord(s, w.slot, s.slots[w.slot].record.(start := w.record.start)).(writer := w.(phase := WroteStart))
    case WroteStart =>
      WithRecord(s, w.slot, s.slots[w.slot].record.(end := w.record.end)).(writer := w.(phase := WroteEnd))
    case WroteEnd =>
      WithRecord(s, w.slot, s.slots[w.slot].record.(kind := w.record.kind)).(writer := w.(phase := WroteKind))
    case WroteKind =>
      WithVersion(s, w.slot, (w.version + 2) % U32)
      .(writer := w.(phase := Closed), logs := s.logs[w.slot := s.logs[w.slot] + [w.record]])
    case Closed => s.(writer := Idle)
  }

  function ReaderAfter(s: State, r: Reader): Pc
    requires Shaped(s)
  {
    match r.pc
    case AtSlot(i) =>
      if i >= CALLER_CACHE_CAP then Miss
      else if s.slots[i].version % 2 != 0 then AtSlot(i + 1)
      else SawVersion(i, s.slots[i].version, |s.logs[i]|)
    case SawVersion(i, v, first) => SawStart(i, v, first, s.slots[i].record.start)
    case SawStart(i, v, first, start) => SawEnd(i, v, first, start, s.slots[i].record.end)
    case SawEnd(i, v, first, start, end) => SawKind(i, v, first, Record(start, end, s.slots[i].record.kind))
    case SawKind(i, v, first, seen) =>
      if s.slots[i].version == v && seen.start <= r.address < seen.end then Hit(i, first, |s.logs[i]|, seen)
      else AtSlot(i + 1)
    case _ => r.pc
  }

  function After(s: State, e: Event): State
    requires Enabled(s, e)
  {
    match e
    case Insert(record) => s.(writer := Writer(record, Locked, 0, 0))
    case WriterStep => WriterAfter(s)
    case Lookup(t, address) => s.(readers := s.readers[t := Reader(address, AtSlot(0))])
    case ReaderStep(t) => s.(readers := s.readers[t := s.readers[t].(pc := ReaderAfter(s, s.readers[t]))])
  }

  ghost predicate IsRun(states: seq<State>, events: seq<Event>) {
    && |states| == |events| + 1
    && Init(states[0])
    && forall i :: 0 <= i < |events| ==> Enabled(states[i], events[i]) && states[i + 1] == After(states[i], events[i])
  }

  /** The record the `n`-th version of a slot publishes; version 0 is the empty range. */
  function Version(log: seq<Record>, n: nat): Record {
    if 0 < n <= |log| then log[n - 1] else EMPTY
  }

  predicate Open(w: Writer, i: nat) {
    w.Writer? && w.slot == i && (w.phase.Opened? || w.phase.WroteStart? || w.phase.WroteEnd? || w.phase.WroteKind?)
  }

  /** An even version word counts the completed inserts; an odd one marks the writer's slot. */
  predicate SlotInv(slot: Slot, log: seq<Record>, open: bool) {
    && slot.version == (2 * |log| + if open then 1 else 0) % U32
    && (!open ==> slot.record == Version(log, |log|))
  }

  predicate WriterInv(s: State)
    requires Shaped(s)
  {
    s.writer.Writer? ==>
      var w, i := s.writer, s.writer.slot;
      match w.phase
      case Locked => true
      case Chosen => w.version == s.slots[i].version
      case Opened => w.version == 2 * |s.logs[i]| % U32
      case WroteStart => w.version == 2 * |s.logs[i]| % U32 && s.slots[i].record.start == w.record.start
      case WroteEnd =>
        w.version == 2 * |s.logs[i]| % U32 && s.slots[i].record.start == w.record.start
            && s.slots[i].record.end == w.record.end
      case WroteKind => w.version == 2 * |s.logs[i]| % U32 && s.slots[i].record == w.record
      case Closed => true
  }

  /** While no insert has opened or completed in the slot since the first load, what was read so far
      belongs to the record of that version. */
  predicate ReaderInv(s: State, r: Reader)
    requires Shaped(s)
  {
    match r.pc
    case SawVersion(i, v, first) => Began(s, i, v, first)
    case SawStart(i, v, first, start) =>
      Began(s, i, v, first) && (Quiet(s, i, first) ==> start == Version(s.logs[i], first).start)
    case SawEnd(i, v, first, start, end) =>
      Began(s, i, v, first) &&
      (Quiet(s, i, first) ==> start == Version(s.logs[i], first).start && end == Version(s.logs[i], first).end)
    case SawKind(i, v, first, seen) =>
      Began(s, i, v, first) && (Quiet(s, i, first) ==> seen == Version(s.logs[i], first))
    case Hit(i, first, last, found) =>
      && first <= last <= |s.logs[i]| && found.start <= r.address < found.end
      && (last - first < HALF ==> found == Version(s.logs[i], first))
    case _ => true
  }

  predicate Began(s: State, i: SlotIndex, v: nat, first: nat)
    requires Shaped(s)
  {
    first <= |s.logs[i]| && v == 2 * first % U32
  }

  predicate Quiet(s: State, i: SlotIndex, first: nat)
    requires Shaped(s)
  {
    |s.logs[i]| == first && !Open(s.writer, i)
  }

  predicate Inv(s: State) {
    && Shaped(s)
    && (forall i: SlotIndex :: SlotInv(s.slots[i], s.logs[i], Open(s.writer, i)))
    && WriterInv(s)
    && (forall t :: t in s.readers ==> ReaderInv(s, s.readers[t]))
  }

  /** A version word that reads the same twice, less than a full turn apart, saw no insert. */
  lemma SameWordSameVersion(first: nat, last: nat, open: bool)
    requires first <= last && last - first < HALF
    requires 2 * first % U32 == (2 * last + if open then 1 else 0) % U32
    ensures last == first && !open
  {
    var d := 2 * (last - first) + if open then 1 else 0;
    assert (2 * first + d) % U32 == 2 * first % U32;
    assert d < U32;
  }

  lemma OwnReaderStep(s: State, r: Reader)
    requires Inv(s) && ReaderInv(s, r)
    ensures ReaderInv(s, r.(pc := ReaderAfter(s, r)))
  {
    match r.pc
    case AtSlot(i) =>
      if i < CALLER_CACHE_CAP {
        assert SlotInv(s.slots[i], s.logs[i], Open(s.writer, i));
      }
    case SawVersion(i, _, _) => assert SlotInv(s.slots[i], s.logs[i], Open(s.writer, i));
    case SawStart(i, _, _, _) => assert SlotInv(s.slots[i], s.logs[i], Open(s.writer, i));
    case SawEnd(i, _, _, _, _) => assert SlotInv(s.slots[i], s.logs[i], Open(s.writer, i));
    case SawKind(i, v, first, seen) =>
      assert SlotInv(s.slots[i], s.logs[i], Open(s.writer, i));
      if s.slots[i].version == v && |s.logs[i]| - first < HALF {
        SameWordSameVersion(first, |s.logs[i]|, Open(s.writer, i));
      }
    case _ =>
  }

  /** A writer step only opens slots and completes inserts. */
  predicate Advances(s: State, s': State)
    requires Shaped(s) && Shaped(s')
  {
    forall i: SlotIndex ::
      && (s'.logs[i] == s.logs[i] || (|s'.logs[i]| == |s.logs[i]| + 1 && s.logs[i] <= s'.logs[i] && Open(s.writer, i)))
      && (Open(s.writer, i) && s'.logs[i] == s.logs[i] ==> Open(s'.writer, i))
  }

  lemma ReadersStable(s: State, s': State, r: Reader)
    requires Shaped(s) && Shaped(s') && ReaderInv(s, r) && Advances(s, s')
    ensures ReaderInv(s', r)
  {
  }

  /** The 32-bit word for a count. */
  function Word(n: nat): nat { n % U32 }

  lemma WordAdd(n: nat, k: nat)
    requires k <= 2
    ensures (Word(n) + k) % U32 == Word(n + k)
  {
    var q, r := n / U32, n % U32;
    assert n + k == U32 * q + (r + k);
    if r + k < U32 {
      assert (n + k) / U32 == q;
    } else {
      assert (n + k) / U32 == q + 1;
    }
  }

  /** The writer's own slot after its step. */
  lemma OwnSlotStep(s: State)
    requires Inv(s) && s.writer.Writer? && !s.writer.phase.Locked?
    ensures var s', i := WriterAfter(s), s.writer.slot;
            && Shaped(s') && WriterInv(s') && SlotInv(s'.slots[i], s'.logs[i], Open(s'.writer, i))
  {
    hide Word;
    var w := s.writer;
    assert SlotInv(s.slots[w.slot], s.logs[w.slot], Open(w, w.slot));
    WordIsModulus(2 * |s.logs[w.slot]|);
    WordAdd(2 * |s.logs[w.slot]|, 1);
    WordAdd(2 * |s.logs[w.slot]|, 2);
    WordIsModulus(2 * |s.logs[w.slot]| + 1);
    WordIsModulus(2 * |s.logs[w.slot]| + 2);
  }

  lemma WordIsModulus(n: nat)
    ensures Word(n) == n % U32
  {
  }

  lemma WriterStepInv(s: State)
    requires Inv(s) && s.writer.Writer?
    ensures var s' := WriterAfter(s);
            && Shaped(s') && WriterInv(s') && Advances(s, s')
            && forall i: SlotIndex :: SlotInv(s'.slots[i], s'.logs[i], Open(s'.writer, i))
  {
    hide SlotInv, WriterInv;
    var s' := WriterAfter(s);
    if s.writer.phase.Locked? {
      ChooseStep(s);
    } else {
      OwnSlotStep(s);
      OtherSlotsKept(s);
    }
  }

  lemma ChooseStep(s: State)
    requires Inv(s) && s.writer.Writer? && s.writer.phase.Locked?
    ensures var s' := WriterAfter(s);
            && Shaped(s') && WriterInv(s') && s'.slots == s.slots && s'.logs == s.logs
            && forall i: SlotIndex :: !Open(s.writer, i) && !Open(s'.writer, i)
  {
  }

  lemma OtherSlotsKept(s: State)
    requires Shaped(s) && s.writer.Writer? && !s.writer.phase.Locked?
    ensures var s' := WriterAfter(s);
            && Shaped(s') && Advances(s, s')
            && forall i: SlotIndex :: i != s.writer.slot ==>
                 s'.slots[i] == s.slots[i] && s'.logs[i] == s.logs[i] && !Open(s.writer, i) && !Open(s'.writer, i)
  {
  }

  lemma InsertStep(s: State, record: Record)
    requires Inv(s) && s.writer.Idle?
    ensures var s' := After(s, Insert(record));
            && WriterInv(s') && Advances(s, s')
            && forall i: SlotIndex :: SlotInv(s'.slots[i], s'.logs[i], Open(s'.writer, i))
  {
    hide SlotInv, ReaderInv;
    assert forall i: SlotIndex :: !Open(s.writer, i) && !Open(After(s, Insert(record)).writer, i);
  }

  lemma AllReadersStable(s: State, s': State)
    requires Inv(s) && Shaped(s') && Advances(s, s') && s'.readers == s.readers
    ensures forall t :: t in s'.readers ==> ReaderInv(s', s'.readers[t])
  {
    hide SlotInv, WriterInv, ReaderInv, Advances;
    forall t | t in s'.readers ensures ReaderInv(s', s'.readers[t]) {
      ReadersStable(s, s', s.readers[t]);
    }
  }

  lemma ReaderEventInv(s: State, e: Event)
    requires Inv(s) && Enabled(s, e) && (e.Lookup? || e.ReaderStep?)
    ensures ReaderInv(s, After(s, e).readers[e.t])
  {
    if e.ReaderStep? {
      OwnReaderStep(s, s.readers[e.t]);
    }
  }

  /** What a reader relies on does not mention other readers. */
  lemma ReadersIndependent(s: State, readers: map<nat, Reader>, r: Reader)
    requires Shaped(s) && ReaderInv(s, r)
    ensures ReaderInv(s.(readers := readers), r)
  {
  }

  lemma StepKeepsInv(s: State, e: Event)
    requires Inv(s) && Enabled(s, e)
    ensures Inv(After(s, e))
  {
    hide SlotInv, ReaderInv, Advances, WriterAfter, ReaderAfter;
    var s' := After(s, e);
    if e.Insert? {
      InsertStep(s, e.record);
      AllReadersStable(s, s');
    } else if e.WriterStep? {
      WriterStepInv(s);
      WriterKeepsReaders(s);
      AllReadersStable(s, s');
    } else {
      ReaderEventInv(s, e);
      forall t | t in s'.readers ensures ReaderInv(s', s'.readers[t]) {
        ReadersIndependent(s, s'.readers, s'.readers[t]);
        assert s.(readers := s'.readers) == s';
      }
    }
  }

  lemma WriterKeepsReaders(s: State)
    requires Shaped(s) && s.writer.Writer?
    ensures WriterAfter(s).readers == s.readers
  {
  }

  lemma {:induction false} RunKeepsInv(states: seq<State>, events: seq<Event>, n: nat)
    requires IsRun(states, events) && n <= |events|
    ensures Inv(states[n])
  {
    if n > 0 {
      RunKeepsInv(states, events, n - 1);
      StepKeepsInv(states[n - 1], events[n - 1]);
    }
  }

  /** A hit is one whole record that some insert put in that slot and whose range contains the
      address, unless the slot's version word went all the way round during the read. */
  lemma HitsAreWholeRecords(states: seq<State>, events: seq<Event>, n: nat, t: nat)
    requires IsRun(states, events) && n <= |events| && t in states[n].readers && states[n].readers[t].pc.Hit?
    requires states[n].readers[t].pc.last - states[n].readers[t].pc.first < HALF
    ensures |states[n].logs| == CALLER_CACHE_CAP
    ensures var pc := states[n].readers[t].pc;
            && pc.found in states[n].logs[pc.slot]
            && pc.found.start <= states[n].readers[t].address < pc.found.end
  {
    RunKeepsInv(states, events, n);
  }

  /** A reader that looks at slot `i` undisturbed hits there. */
  predicate Matches(s: State, i: nat, address: nat)
    requires Shaped(s)
  {
    i < CALLER_CACHE_CAP && s.slots[i].version % 2 == 0 && s.slots[i].record.start <= address < s.slots[i].record.end
  }

  predicate NoneBelow(s: State, k: nat, address: nat)
    requires Shaped(s)
  {
    forall i :: 0 <= i < k ==> !Matches(s, i, address)
  }

  /** How far an undisturbed lookup that began in state `s0` has come. */
  predicate Scans(s0: State, r: Reader)
    requires Shaped(s0)
  {
    match r.pc
    case AtSlot(i) => NoneBelow(s0, i, r.address)
    case SawVersion(i, v, _) => NoneBelow(s0, i, r.address) && v == s0.slots[i].version && v % 2 == 0
    case SawStart(i, v, _, start) =>
      && NoneBelow(s0, i, r.address) && v == s0.slots[i].version && v % 2 == 0 && start == s0.slots[i].record.start
    case SawEnd(i, v, _, start, end) =>
      && NoneBelow(s0, i, r.address) && v == s0.slots[i].version && v % 2 == 0
      && start == s0.slots[i].record.start && end == s0.slots[i].record.end
    case SawKind(i, v, _, seen) =>
      NoneBelow(s0, i, r.address) && v == s0.slots[i].version && v % 2 == 0 && seen == s0.slots[i].record
    case Hit(i, _, _, found) => NoneBelow(s0, i, r.address) && Matches(s0, i, r.address) && found == s0.slots[i].record
    case Miss => NoneBelow(s0, CALLER_CACHE_CAP, r.address)
  }

  lemma ScanStep(s0: State, s: State, r: Reader)
    requires Shaped(s0) && Shaped(s) && s.slots == s0.slots && Scans(s0, r)
    ensures Scans(s0, r.(pc := ReaderAfter(s, r)))
  {
  }

  /** A lookup with no writer step inside it finds the record of the first slot that is closed and
      contains the address, and misses only if there is none. */
  lemma {:induction false} QuietLookupsAreExact(states: seq<State>, events: seq<Event>, b: nat, n: nat)
    requires IsRun(states, events) && b < n <= |events| && events[b].Lookup?
    requires forall x :: b < x < n ==> !events[x].WriterStep? && !(events[x].Lookup? && events[x].t == events[b].t)
    ensures Shaped(states[b]) && events[b].t in states[n].readers
    ensures states[n].slots == states[b].slots && states[n].readers[events[b].t].address == events[b].address
    ensures Scans(states[b], states[n].readers[events[b].t])
    decreases n
  {
    if n > b + 1 {
      QuietLookupsAreExact(states, events, b, n - 1);
      if events[n - 1] == ReaderStep(events[b].t) {
        ScanStep(states[b], states[n - 1], states[n - 1].readers[events[b].t]);
      }
    }
  }

  /** When an insert closes, its slot holds exactly its record under an even version. */
  lemma InsertsPublish(states: seq<State>, events: seq<Event>, n: nat)
    requires IsRun(states, events) && n < |events| && events[n].WriterStep?
    requires states[n].writer.Writer? && states[n].writer.phase == WroteKind
    ensures var w := states[n].writer;
            && Shaped(states[n + 1]) && states[n + 1].slots[w.slot].record == w.record
            && states[n + 1].slots[w.slot].version % 2 == 0
            && Shaped(states[n]) && states[n + 1].logs[w.slot] == states[n].logs[w.slot] + [w.record]
  {
    RunKeepsInv(states, events, n);
    RunKeepsInv(states, events, n + 1);
    WordIsEven(|states[n + 1].logs[states[n].writer.slot]|);
  }

  lemma WordIsEven(n: nat)
    ensures 2 * n % U32 % 2 == 0
  {
    assert 2 * n % U32 == 2 * n - U32 * (2 * n / U32);
  }

  /** How many inserts have chosen their slot in the first `n` events. */
  ghost function ChosenSlots(states: seq<State>, events: seq<Event>, n: nat): nat
    requires n <= |events| < |states|
  {
    if n == 0 then 0
    else
      var w := states[n - 1].writer;
      ChosenSlots(states, events, n - 1) + One(events[n - 1].WriterStep? && w.Writer? && w.phase == Locked)
  }

  /** Entries are replaced round-robin: the `k`-th insert goes to slot `k` modulo the capacity. */
  lemma ReplacedRoundRobin(states: seq<State>, events: seq<Event>, n: nat)
    requires IsRun(states, events) && n < |events| && events[n].WriterStep?
    requires states[n].writer.Writer? && states[n].writer.phase == Locked
    ensures states[n + 1].writer.Writer? && states[n + 1].writer.slot == ChosenSlots(states, events, n) % 64
  {
    NextFollows(states, events, n);
  }

  lemma {:induction false} NextFollows(states: seq<State>, events: seq<Event>, n: nat)
    requires IsRun(states, events) && n <= |events|
    ensures states[n].next % 64 == ChosenSlots(states, events, n) % 64
  {
    if n > 0 {
      NextFollows(states, events, n - 1);
      NextStep(states[n - 1], events[n - 1]);
    }
  }

  lemma NextStep(s: State, e: Event)
    requires Enabled(s, e)
    ensures After(s, e).next % 64 ==
            (s.next % 64 + One(e.WriterStep? && s.writer.Writer? && s.writer.phase == Locked)) % 64
  {
  }
}
