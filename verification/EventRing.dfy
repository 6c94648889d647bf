/**
 The diagnostics history: writers in signal handlers claim a ring slot by ticket and drop their sample
 when they lose; a dumper reads the recent tickets field by field while writers keep going.
 Tickets stay below the writing bit, so a sequence word is a ticket number and a flag.
 */
module EventRing {
  const HISTORY_CAPACITY: nat := 32
  const FIELD_COUNT: nat := 13

  type Sample = f: seq<nat> | |f| == FIELD_COUNT witness seq(FIELD_COUNT, _ => 0)

  /** `ticket` is one more than the ticket that owns the slot, 0 for none. */
  datatype Sequence = Sequence(ticket: nat, writing: bool)

  datatype Slot = Slot(sequence: Sequence, fields: Sample)

  datatype Writing = Loading | Claiming(current: Sequence) | Filling(done: nat) | Dropped | Recorded

  datatype Writer = Writer(ticket: nat, sample: Sample, pc: Writing)

  /** What a dumper has delivered so far, and where it is in the ticket it is looking at. */
  datatype Reading = Checking | Copying(got: seq<nat>) | Over

  datatype Reader = Reader(ticket: nat, end: nat, delivered: seq<(nat, seq<nat>)>, pc: Reading)

  /** `samples[k]` is the sample recorded under ticket `k`. */
  datatype State = State(samples: seq<Sample>, slots: seq<Slot>, writers: map<nat, Writer>, readers: map<nat, Reader>)

  predicate Shaped(s: State) { |s.slots| == HISTORY_CAPACITY }

  predicate Init(s: State) {
    && Shaped(s) && s.samples == [] && s.writers == map[] && s.readers == map[]
    && forall i :: 0 <= i < HISTORY_CAPACITY ==> s.slots[i].sequence == Sequence(0, false)
  }

  datatype Event =
    | TakeTicket(t: nat, sample: Sample)
    | WriterStep(t: nat)
    | StartDump(t: nat)
    | ReaderStep(t: nat)

  predicate Enabled(s: State, e: Event) {
    && Shaped(s)
    && match e
       case TakeTicket(t, _) => t in s.writers ==> s.writers[t].pc.Dropped? || s.writers[t].pc.Recorded?
       case WriterStep(t) => t in s.writers && !s.writers[t].pc.Dropped? && !s.writers[t].pc.Recorded?
       case StartDump(t) => t in s.readers ==> s.readers[t].pc.Over?
       case ReaderStep(t) => t in s.readers && !s.readers[t].pc.Over?
  }

  function Home(ticket: nat): nat { ticket % HISTORY_CAPACITY }

  /** The first ticket a dump looks at when `end` tickets have been taken. */
  function Oldest(end: nat): nat { if end < HISTORY_CAPACITY then 0 else end - HISTORY_CAPACITY }

  function WriterAfter(w: Writer, slot: Slot): (Writer, Slot)
    requires !w.pc.Dropped? && !w.pc.Recorded?
  {
    match w.pc
    case Loading =>
      if slot.sequence.writing || slot.sequence.ticket > w.ticket + 1 then (w.(pc := Dropped), slot)
      else (w.(pc := Claiming(slot.sequence)), slot)
    case Claiming(current) =>
      if slot.sequence != current then (w.(pc := Loading), slot)
      else (w.(pc := Filling(0)), slot.(sequence := Sequence(w.ticket + 1, true)))
    case Filling(done) =>
      if done < FIELD_COUNT then (w.(pc := Filling(done + 1)), slot.(fields := slot.fields[done := w.sample[done]]))
      else (w.(pc := Recorded), slot.(sequence := Sequence(w.ticket + 1, false)))
  }

  function ReaderAfter(r: Reader, slot: Slot): Reader {
    match r.pc
    case Checking =>
      if r.ticket >= r.end then r.(pc := Over)
      else if slot.sequence != Sequence(r.ticket + 1, false) then r.(ticket := r.ticket + 1)
      else r.(pc := Copying([]))
    case Copying(got) =>
      if |got| < FIELD_COUNT then r.(pc := Copying(got + [slot.fields[|got|]]))
      else
        r.(ticket := r.ticket + 1, pc := Checking,
           delivered := if slot.sequence == Sequence(r.ticket + 1, false) then r.delivered + [(r.ticket, got)]
                        else r.delivered)
    case Over => r
  }

  function After(s: State, e: Event): State
    requires Enabled(s, e)
  {
    match e
    case TakeTicket(t, sample) =>
      s.(samples := s.samples + [sample], writers := s.writers[t := Writer(|s.samples|, sample, Loading)])
    case WriterStep(t) =>
      var i := Home(s.writers[t].ticket);
      var next := WriterAfter(s.writers[t], s.slots[i]);
      s.(writers := s.writers[t := next.0], slots := s.slots[i := next.1])
    case StartDump(t) =>
      var end := |s.samples|;
      s.(readers := s.readers[t := Reader(Oldest(end), end, [], Checking)])
    case ReaderStep(t) =>
      s.(readers := s.readers[t := ReaderAfter(s.readers[t], s.slots[Home(s.readers[t].ticket)])])
  }

  ghost predicate IsRun(states: seq<State>, events: seq<Event>) {
    && |states| == |events| + 1
    && Init(states[0])
    && forall i :: 0 <= i < |events| ==> Enabled(states[i], events[i]) && states[i + 1] == After(states[i], events[i])
  }

  /** A published slot holds exactly the sample of its ticket. */
  predicate SlotInv(samples: seq<Sample>, i: nat, slot: Slot) {
    var ticket := slot.sequence.ticket - 1;
    && (slot.sequence.ticket == 0 ==> !slot.sequence.writing)
    && (slot.sequence.ticket != 0 ==> ticket < |samples| && Home(ticket) == i)
    && (slot.sequence.ticket != 0 && !slot.sequence.writing ==> slot.fields == samples[ticket])
  }

  /** The ticket has not reached its slot yet. */
  predicate Pending(pc: Writing) { pc.Loading? || pc.Claiming? }

  predicate WriterInv(samples: seq<Sample>, slot: Slot, w: Writer) {
    && w.ticket < |samples| && samples[w.ticket] == w.sample
    && (Pending(w.pc) ==> slot.sequence.ticket != w.ticket + 1)
    && (w.pc.Claiming? ==>
          && !w.pc.current.writing
          && w.pc.current.ticket <= slot.sequence.ticket && w.pc.current.ticket <= w.ticket + 1)
    && (w.pc.Filling? ==>
          && slot.sequence == Sequence(w.ticket + 1, true)
          && w.pc.done <= FIELD_COUNT && slot.fields[..w.pc.done] == w.sample[..w.pc.done])
  }

  predicate ReaderInv(samples: seq<Sample>, slot: Slot, r: Reader) {
    && r.end <= |samples| && r.ticket <= r.end
    && (forall i :: 0 <= i < |r.delivered| ==>
          r.delivered[i].0 < r.ticket && r.delivered[i].1 == samples[r.delivered[i].0])
    && (forall i, j :: 0 <= i < j < |r.delivered| ==> r.delivered[i].0 < r.delivered[j].0)
    && (r.pc.Copying? ==>
          && r.ticket < r.end && |r.pc.got| <= FIELD_COUNT
          && (slot.sequence.ticket > r.ticket + 1 || slot.sequence == Sequence(r.ticket + 1, false))
          && (slot.sequence == Sequence(r.ticket + 1, false) ==> r.pc.got == samples[r.ticket][..|r.pc.got|]))
  }

  predicate SlotsInv(s: State)
    requires Shaped(s)
  {
    forall i :: 0 <= i < HISTORY_CAPACITY ==> SlotInv(s.samples, i, s.slots[i])
  }

  predicate WritersInv(s: State)
    requires Shaped(s)
  {
    && (forall t :: t in s.writers ==> WriterInv(s.samples, s.slots[Home(s.writers[t].ticket)], s.writers[t]))
    && (forall t, u :: t in s.writers && u in s.writers && t != u ==> s.writers[t].ticket != s.writers[u].ticket)
  }

  predicate ReadersInv(s: State)
    requires Shaped(s)
  {
    forall t :: t in s.readers ==> ReaderInv(s.samples, s.slots[Home(s.readers[t].ticket)], s.readers[t])
  }

  predicate Inv(s: State) { Shaped(s) && SlotsInv(s) && WritersInv(s) && ReadersInv(s) }

  /** How one writer's step may change its slot: nothing, a claim by a newer ticket, a field, a publication. */
  predicate SlotMoves(w: Writer, slot: Slot, slot': Slot) {
    || slot' == slot
    || (!slot.sequence.writing && slot.sequence.ticket <= w.ticket
        && slot' == slot.(sequence := Sequence(w.ticket + 1, true)))
    || (slot.sequence == Sequence(w.ticket + 1, true) && slot'.sequence == slot.sequence)
    || (slot.sequence == Sequence(w.ticket + 1, true) && slot' == slot.(sequence := Sequence(w.ticket + 1, false)))
  }

  lemma WriterOwnStep(samples: seq<Sample>, i: nat, slot: Slot, w: Writer)
    requires SlotInv(samples, i, slot) && WriterInv(samples, slot, w) && Home(w.ticket) == i
    requires !w.pc.Dropped? && !w.pc.Recorded?
    ensures var (w', slot') := WriterAfter(w, slot);
            && SlotInv(samples, i, slot') && WriterInv(samples, slot', w') && SlotMoves(w, slot, slot')
            && w'.ticket == w.ticket
  {
    if w.pc.Filling? && w.pc.done < FIELD_COUNT {
      var slot' := WriterAfter(w, slot).1;
      assert slot'.fields[..w.pc.done + 1] == w.sample[..w.pc.done] + [w.sample[w.pc.done]] ==
          w.sample[..w.pc.done + 1];
    } else if w.pc.Filling? {
      assert slot.fields == slot.fields[..FIELD_COUNT] && w.sample == w.sample[..FIELD_COUNT];
    }
  }

  lemma OtherWriterStable(samples: seq<Sample>, w: Writer, slot: Slot, slot': Slot, other: Writer)
    requires WriterInv(samples, slot, other) && SlotMoves(w, slot, slot') && other.ticket != w.ticket
    ensures WriterInv(samples, slot', other)
  {
  }

  lemma ReaderStable(samples: seq<Sample>, w: Writer, slot: Slot, slot': Slot, r: Reader)
    requires ReaderInv(samples, slot, r) && SlotMoves(w, slot, slot')
    ensures ReaderInv(samples, slot', r)
  {
  }

  lemma ReaderOwnStep(samples: seq<Sample>, i: nat, slot: Slot, r: Reader, slot': Slot)
    requires SlotInv(samples, i, slot) && ReaderInv(samples, slot, r) && Home(r.ticket) == i
    requires ReaderAfter(r, slot).ticket == r.ticket ==> slot' == slot
    ensures ReaderInv(samples, slot', ReaderAfter(r, slot))
  {
    if r.pc.Copying? {
      var got := r.pc.got;
      if |got| < FIELD_COUNT {
        if slot.sequence == Sequence(r.ticket + 1, false) {
          assert samples[r.ticket][..|got| + 1] == samples[r.ticket][..|got|] + [samples[r.ticket][|got|]];
        }
      } else {
        assert samples[r.ticket][..FIELD_COUNT] == samples[r.ticket];
      }
    }
  }

  lemma WriterStepInv(s: State, e: Event)
    requires Inv(s) && Enabled(s, e) && e.WriterStep?
    ensures Inv(After(s, e))
  {
    hide SlotInv, WriterInv, ReaderInv, WriterAfter, SlotMoves;
    var w := s.writers[e.t];
    var i := Home(w.ticket);
    WriterOwnStep(s.samples, i, s.slots[i], w);
    var s' := After(s, e);
    var slot' := WriterAfter(w, s.slots[i]).1;
    forall u | u in s'.writers && u != e.t
      ensures WriterInv(s'.samples, s'.slots[Home(s'.writers[u].ticket)], s'.writers[u])
    {
      if Home(s.writers[u].ticket) == i {
        OtherWriterStable(s.samples, w, s.slots[i], slot', s.writers[u]);
      }
    }
    forall u | u in s'.readers ensures ReaderInv(s'.samples, s'.slots[Home(s'.readers[u].ticket)], s'.readers[u]) {
      if Home(s.readers[u].ticket) == i {
        ReaderStable(s.samples, w, s.slots[i], slot', s.readers[u]);
      }
    }
  }

  lemma ReaderStepInv(s: State, e: Event)
    requires Inv(s) && Enabled(s, e) && (e.ReaderStep? || e.StartDump?)
    ensures Inv(After(s, e))
  {
    hide SlotInv, WriterInv;
    var s' := After(s, e);
    if e.ReaderStep? {
      var r := s.readers[e.t];
      ReaderOwnStep(s.samples, Home(r.ticket), s.slots[Home(r.ticket)], r, s.slots[Home(s'.readers[e.t].ticket)]);
    }
  }

  lemma SampleAppended(samples: seq<Sample>, sample: Sample, i: nat, slot: Slot, w: Writer, r: Reader)
    ensures SlotInv(samples, i, slot) ==> SlotInv(samples + [sample], i, slot)
    ensures WriterInv(samples, slot, w) ==> WriterInv(samples + [sample], slot, w)
    ensures ReaderInv(samples, slot, r) ==> ReaderInv(samples + [sample], slot, r)
  {
  }

  lemma TicketStepInv(s: State, e: Event)
    requires Inv(s) && Enabled(s, e) && e.TakeTicket?
    ensures Inv(After(s, e))
  {
    var s' := After(s, e);
    var w0, r0 := Writer(0, e.sample, Loading), Reader(0, 0, [], Checking);
    forall i | 0 <= i < HISTORY_CAPACITY ensures SlotInv(s'.samples, i, s'.slots[i]) {
      SampleAppended(s.samples, e.sample, i, s.slots[i], w0, r0);
    }
    forall u | u in s'.writers ensures WriterInv(s'.samples, s'.slots[Home(s'.writers[u].ticket)], s'.writers[u]) {
      if u != e.t {
        SampleAppended(s.samples, e.sample, 0, s.slots[Home(s.writers[u].ticket)], s.writers[u], r0);
      } else {
        assert SlotInv(s.samples, Home(|s.samples|), s.slots[Home(|s.samples|)]);
      }
    }
    forall u | u in s'.readers ensures ReaderInv(s'.samples, s'.slots[Home(s'.readers[u].ticket)], s'.readers[u]) {
      SampleAppended(s.samples, e.sample, 0, s.slots[Home(s.readers[u].ticket)], w0, s.readers[u]);
    }
  }

  lemma {:induction false} RunKeepsInv(states: seq<State>, events: seq<Event>, n: nat)
    requires IsRun(states, events) && n <= |events|
    ensures Inv(states[n])
  {
    hide Inv, After;
    if n == 0 {
      InitInv(states[0]);
    } else {
      RunKeepsInv(states, events, n - 1);
      match events[n - 1]
      case TakeTicket(_, _) => TicketStepInv(states[n - 1], events[n - 1]);
      case WriterStep(_) => WriterStepInv(states[n - 1], events[n - 1]);
      case _ => ReaderStepInv(states[n - 1], events[n - 1]);
    }
  }

  lemma InitInv(s: State)
    requires Init(s)
    ensures Inv(s)
  {
  }

  /** A dump delivers, in strictly increasing ticket order, exactly the samples recorded under those tickets. */
  lemma DumpsAreFaithful(states: seq<State>, events: seq<Event>, n: nat, t: nat)
    requires IsRun(states, events) && n <= |events| && t in states[n].readers
    ensures var delivered := states[n].readers[t].delivered;
            && (forall i :: 0 <= i < |delivered| ==>
                  delivered[i].0 < |states[n].samples| && delivered[i].1 == states[n].samples[delivered[i].0])
            && (forall i, j :: 0 <= i < j < |delivered| ==> delivered[i].0 < delivered[j].0)
  {
    RunKeepsInv(states, events, n);
    assert ReaderInv(states[n].samples, states[n].slots[Home(states[n].readers[t].ticket)], states[n].readers[t]);
  }

  /** Two writers never fill the same slot at once. */
  lemma OneFillerPerSlot(states: seq<State>, events: seq<Event>, n: nat, t: nat, u: nat)
    requires IsRun(states, events) && n <= |events|
    requires t in states[n].writers && u in states[n].writers
    requires states[n].writers[t].pc.Filling? && states[n].writers[u].pc.Filling?
    requires Home(states[n].writers[t].ticket) == Home(states[n].writers[u].ticket)
    ensures t == u
  {
    RunKeepsInv(states, events, n);
    assert WriterInv(states[n].samples, states[n].slots[Home(states[n].writers[t].ticket)], states[n].writers[t]);
    assert WriterInv(states[n].samples, states[n].slots[Home(states[n].writers[u].ticket)], states[n].writers[u]);
  }

  predicate PublishedUnder(s: State, ticket: nat)
    requires Shaped(s)
  {
    s.slots[Home(ticket)].sequence == Sequence(ticket + 1, false)
  }

  predicate Delivers(r: Reader, ticket: nat) { exists i :: 0 <= i < |r.delivered| && r.delivered[i].0 == ticket }

  /** Nothing was written since state `s0`, and the dump has missed no published ticket from `first` on. */
  predicate Complete(s0: State, s: State, t: nat, first: nat, end: nat)
    requires Shaped(s0)
  {
    && s.slots == s0.slots && t in s.readers && s.readers[t].end == end
    && (forall k: nat :: first <= k < end && k < s.readers[t].ticket && PublishedUnder(s0, k) ==>
        Delivers(s.readers[t], k))
    && (s.readers[t].pc.Copying? ==> PublishedUnder(s0, s.readers[t].ticket))
    && (s.readers[t].pc.Over? ==> s.readers[t].ticket >= end)
  }

  lemma CompleteStep(s0: State, s: State, e: Event, t: nat, first: nat, end: nat)
    requires Shaped(s0) && Complete(s0, s, t, first, end) && Enabled(s, e)
    requires !e.WriterStep? && e != StartDump(t)
    ensures Complete(s0, After(s, e), t, first, end)
  {
    var s' := After(s, e);
    if e == ReaderStep(t) {
      var r, r' := s.readers[t], s'.readers[t];
      assert r'.delivered[..|r.delivered|] == r.delivered;
      forall k: nat | first <= k < end && k < r'.ticket && PublishedUnder(s0, k) ensures Delivers(r', k) {
        if k < r.ticket {
          assert Delivers(r, k);
          var i :| 0 <= i < |r.delivered| && r.delivered[i].0 == k;
          assert r'.delivered[i] == r.delivered[i];
        } else {
          assert r'.delivered[|r.delivered|].0 == k;
        }
      }
    }
  }

  /** A dump during which no writer steps delivers every ticket of its range whose slot is published
      under that ticket. */
  lemma {:induction false} QuietDumpsMissNothing(states: seq<State>, events: seq<Event>, b: nat, n: nat)
    requires IsRun(states, events) && b < n <= |events| && events[b].StartDump?
    requires forall x :: b < x < n ==> !events[x].WriterStep? && events[x] != events[b]
    ensures Shaped(states[b])
    ensures var end := |states[b].samples|;
            Complete(states[b], states[n], events[b].t, Oldest(end), end)
    decreases n
  {
    var end := |states[b].samples|;
    if n > b + 1 {
      QuietDumpsMissNothing(states, events, b, n - 1);
      CompleteStep(states[b], states[n - 1], events[n - 1], events[b].t, Oldest(end), end);
    }
  }

  /** Together with `DumpsAreFaithful`: a finished quiet dump has delivered exactly the published part
      of its range. */
  lemma QuietDumpsAreComplete(states: seq<State>, events: seq<Event>, b: nat, n: nat, ticket: nat)
    requires IsRun(states, events) && b < n <= |events| && events[b].StartDump?
    requires forall x :: b < x < n ==> !events[x].WriterStep? && events[x] != events[b]
    requires events[b].t in states[n].readers && states[n].readers[events[b].t].pc.Over?
    requires |states[b].samples| <= ticket + HISTORY_CAPACITY && ticket < |states[b].samples|
    requires Shaped(states[b]) && PublishedUnder(states[b], ticket)
    ensures ticket < |states[n].samples|
    ensures exists i :: 0 <= i < |states[n].readers[events[b].t].delivered|
                        && states[n].readers[events[b].t].delivered[i] == (ticket, states[n].samples[ticket])
  {
    hide Enabled, After;
    QuietDumpsMissNothing(states, events, b, n);
    var r := states[n].readers[events[b].t];
    assert Delivers(r, ticket);
    var i :| 0 <= i < |r.delivered| && r.delivered[i].0 == ticket;
    DumpsAreFaithful(states, events, n, events[b].t);
    assert r.delivered[i] == (ticket, states[n].samples[ticket]);
  }

  /** Somebody is filling the slot under the ticket its sequence word shows. */
  ghost predicate Filler(s: State, i: nat)
    requires Shaped(s) && i < HISTORY_CAPACITY
  {
    exists u :: u in s.writers && s.writers[u].pc.Filling? && Home(s.writers[u].ticket) == i
                && s.slots[i].sequence.ticket == s.writers[u].ticket + 1
  }

  ghost predicate FillersInv(s: State)
    requires Shaped(s)
  {
    forall i :: 0 <= i < HISTORY_CAPACITY && s.slots[i].sequence.writing ==> Filler(s, i)
  }

  lemma FillersStep(s: State, e: Event)
    requires Enabled(s, e) && Inv(s) && FillersInv(s)
    ensures Shaped(After(s, e)) && FillersInv(After(s, e))
  {
    var s' := After(s, e);
    forall i | 0 <= i < HISTORY_CAPACITY && s'.slots[i].sequence.writing ensures Filler(s', i) {
      if e.WriterStep? && Home(s.writers[e.t].ticket) == i && s'.writers[e.t].pc.Filling? {
        assert WriterInv(s.samples, s.slots[i], s.writers[e.t]);
        assert s'.slots[i].sequence.ticket == s'.writers[e.t].ticket + 1;
      } else {
        assert Filler(s, i);
        var u :| u in s.writers && s.writers[u].pc.Filling? && Home(s.writers[u].ticket) == i
                 && s.slots[i].sequence.ticket == s.writers[u].ticket + 1;
        assert WriterInv(s.samples, s.slots[i], s.writers[u]);
        assert u in s'.writers && s'.writers[u] == s.writers[u];
      }
    }
  }

  lemma {:induction false} FillersThroughout(states: seq<State>, events: seq<Event>, n: nat)
    requires IsRun(states, events) && n <= |events|
    ensures Shaped(states[n]) && FillersInv(states[n])
  {
    hide Enabled, After, Inv, FillersInv;
    if n == 0 {
      NobodyFills(states[0]);
    } else {
      FillersThroughout(states, events, n - 1);
      RunKeepsInv(states, events, n - 1);
      FillersStep(states[n - 1], events[n - 1]);
    }
  }

  lemma NobodyFills(s: State)
    requires Init(s)
    ensures Shaped(s) && FillersInv(s)
  {
  }

  /** A sample is dropped only because another writer is filling its slot at that moment, or a newer
      ticket has already taken it. */
  lemma DropsAreJustified(states: seq<State>, events: seq<Event>, n: nat)
    requires IsRun(states, events) && n < |events| && events[n].WriterStep?
    requires events[n].t in states[n + 1].writers && states[n + 1].writers[events[n].t].pc.Dropped?
    ensures events[n].t in states[n].writers && Shaped(states[n])
    ensures var ticket := states[n].writers[events[n].t].ticket; var i := Home(ticket);
            || states[n].slots[i].sequence.ticket > ticket + 1
            || exists u :: u in states[n].writers && u != events[n].t && states[n].writers[u].pc.Filling?
                           && Home(states[n].writers[u].ticket) == i
  {
    FillersThroughout(states, events, n);
    var s, t := states[n], events[n].t;
    var i := Home(s.writers[t].ticket);
    if s.slots[i].sequence.writing {
      assert Filler(s, i);
    }
  }

  /** A recorded sample is published whole under its own ticket. */
  lemma RecordsPublish(states: seq<State>, events: seq<Event>, n: nat)
    requires IsRun(states, events) && n < |events| && events[n].WriterStep?
    requires events[n].t in states[n + 1].writers && states[n + 1].writers[events[n].t].pc.Recorded?
    ensures var w := states[n + 1].writers[events[n].t];
            && Shaped(states[n + 1]) && PublishedUnder(states[n + 1], w.ticket)
            && states[n + 1].slots[Home(w.ticket)].fields == w.sample
  {
    RunKeepsInv(states, events, n);
    var w := states[n].writers[events[n].t];
    assert WriterInv(states[n].samples, states[n].slots[Home(w.ticket)], w);
    assert w.pc.Filling? ==> w.sample[..FIELD_COUNT] == w.sample;
  }
}
