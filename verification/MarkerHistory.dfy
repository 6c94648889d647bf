/**
 One thread's dispatcher calls, consumes and cancels in order, and what they say about its markers.
 `MarkerLog` reads such a history off every interleaving of the slot table.
 */
module MarkerHistory {
  import opened Common
  import opened MarkerSpec

  /** `marks[i]` are the thread's live markers before job `i`. */
  datatype Life = Life(jobs: seq<Job>, results: seq<Result>, marks: seq<Marks>)

  predicate IsLife(h: Life) {
    && |h.jobs| == |h.results| == |h.marks| - 1
    && h.marks[0] == map[]
    && forall i :: 0 <= i < |h.jobs| ==> Allowed(h.jobs[i], h.marks[i], h.results[i], h.marks[i + 1])
  }

  /** The job can change a marker at (`stack`, `rip`). */
  predicate Concerns(job: Job, stack: nat, rip: nat) {
    if job.Dispatch? then job.stack >= stack else job.stack == stack && job.rip == rip
  }

  predicate LeftAlone(h: Life, from: nat, to: nat, stack: nat, rip: nat)
    requires to <= |h.jobs|
  {
    forall x :: from < x < to ==> !Concerns(h.jobs[x], stack, rip)
  }

  /** Armed by job `m`, and nothing has concerned it before job `n`. */
  predicate Fresh(h: Life, m: nat, n: nat, stack: nat, rip: nat)
    requires IsLife(h) && n <= |h.jobs|
  {
    && m < n && h.jobs[m] == Dispatch(stack, true, rip) && h.results[m] == Armed
    && LeftAlone(h, m, n, stack, rip)
  }

  /** Armed by job `m`, first consumed by job `a`, and nothing has concerned it since. */
  predicate Routed(h: Life, m: nat, a: nat, n: nat, stack: nat, rip: nat, saved: Context)
    requires IsLife(h) && n <= |h.jobs|
  {
    && a < n && Fresh(h, m, a, stack, rip)
    && h.jobs[a] == Consume(stack, rip, saved)
    && LeftAlone(h, a, n, stack, rip)
  }

  /** What the history says is live at `stack` before job `n`. */
  ghost predicate Recorded(h: Life, n: nat, stack: nat, mark: Mark)
    requires IsLife(h) && n <= |h.jobs|
  {
    match mark.routed
    case None => exists m: nat :: Fresh(h, m, n, stack, mark.rip)
    case Some(saved) => exists m: nat, a: nat :: Routed(h, m, a, n, stack, mark.rip, saved)
  }

  /** A marker nobody concerned is recorded after the job just as before. */
  lemma RecordedStep(h: Life, n: nat, stack: nat, mark: Mark)
    requires IsLife(h) && n < |h.jobs| && !Concerns(h.jobs[n], stack, mark.rip)
    ensures Recorded(h, n, stack, mark) <==> Recorded(h, n + 1, stack, mark)
  {
    var next := n + 1;
    match mark.routed {
      case None =>
        forall m: nat | Fresh(h, m, n, stack, mark.rip) ensures Fresh(h, m, next, stack, mark.rip) {}
        forall m: nat | Fresh(h, m, next, stack, mark.rip) ensures Fresh(h, m, n, stack, mark.rip) {}
      case Some(saved) =>
        forall m: nat, a: nat | Routed(h, m, a, n, stack, mark.rip, saved)
            ensures Routed(h, m, a, next, stack, mark.rip, saved) {}
        forall m: nat, a: nat | Routed(h, m, a, next, stack, mark.rip, saved)
            ensures Routed(h, m, a, n, stack, mark.rip, saved) {}
    }
  }

  /** A job that concerns a marker leaves it unrouted only by arming it, routed only by routing it. */
  lemma RecordedAfter(h: Life, n: nat, stack: nat, mark: Mark)
    requires IsLife(h) && n < |h.jobs| && Concerns(h.jobs[n], stack, mark.rip)
    ensures mark.routed.None? ==>
              (Recorded(h, n + 1, stack, mark) <==>
               h.jobs[n] == Dispatch(stack, true, mark.rip) && h.results[n] == Armed)
    ensures mark.routed.Some? ==>
              (Recorded(h, n + 1, stack, mark) <==>
               h.jobs[n] == Consume(stack, mark.rip, mark.routed.value) && Recorded(h, n, stack, Mark(mark.rip, None)))
  {
    var next := n + 1;
    match mark.routed {
      case None =>
        forall m: nat | Fresh(h, m, next, stack, mark.rip) ensures m == n {}
        assert h.jobs[n] == Dispatch(stack, true, mark.rip) && h.results[n] == Armed ==>
            Fresh(h, n, next, stack, mark.rip);
      case Some(saved) =>
        forall m: nat, a: nat | Routed(h, m, a, next, stack, mark.rip, saved) ensures a == n {}
        forall m: nat | Fresh(h, m, n, stack, mark.rip) && h.jobs[n] == Consume(stack, mark.rip, saved)
          ensures Routed(h, m, n, next, stack, mark.rip, saved)
        {
        }
    }
  }

  /** The live markers are exactly those the history records. */
  lemma {:induction false} MarksAreRecorded(h: Life, n: nat, stack: nat, mark: Mark)
    requires IsLife(h) && n <= |h.jobs|
    ensures stack in h.marks[n] && h.marks[n][stack] == mark <==> Recorded(h, n, stack, mark)
    decreases n, mark.routed.Some?
  {
    hide Recorded;
    if n == 0 {
      NothingRecorded(h, stack, mark);
    } else {
      assert Allowed(h.jobs[n - 1], h.marks[n - 1], h.results[n - 1], h.marks[n]);
      MarksAreRecorded(h, n - 1, stack, mark);
      if Concerns(h.jobs[n - 1], stack, mark.rip) {
        MarksAreRecorded(h, n - 1, stack, Mark(mark.rip, None));
        RecordedAfter(h, n - 1, stack, mark);
      } else {
        RecordedStep(h, n - 1, stack, mark);
      }
    }
  }

  lemma NothingRecorded(h: Life, stack: nat, mark: Mark)
    requires IsLife(h)
    ensures !Recorded(h, 0, stack, mark)
  {
  }

  /** A consume answers Route exactly when the marker was armed and untouched since, and Replay
      exactly when it was then routed once and untouched since, with the registers given there. */
  lemma ConsumeAnswers(h: Life, n: nat)
    requires IsLife(h) && n < |h.jobs| && h.jobs[n].Consume?
    ensures var k, r := h.jobs[n].stack, h.jobs[n].rip;
            && (h.results[n] == Route <==> exists m: nat :: Fresh(h, m, n, k, r))
            && (forall saved :: h.results[n] == Replay(saved) <==>
                exists m: nat, a: nat :: Routed(h, m, a, n, k, r, saved))
            && (h.results[n] == Route || h.results[n].Replay? || h.results[n] == Nothing)
  {
    var k, r := h.jobs[n].stack, h.jobs[n].rip;
    assert Allowed(h.jobs[n], h.marks[n], h.results[n], h.marks[n + 1]);
    MarksAreRecorded(h, n, k, Mark(r, None));
    forall saved ensures h.results[n] == Replay(saved) <==> exists m: nat, a: nat :: Routed(h, m, a, n, k, r, saved) {
      MarksAreRecorded(h, n, k, Mark(r, Some(saved)));
    }
  }

  /** Between two equal answers for one marker it has been armed again. */
  lemma AnsweredOncePerArming(h: Life, a: nat, b: nat)
    requires IsLife(h) && a < b < |h.jobs| && h.jobs[a].Consume? && h.jobs[b].Consume?
    requires h.jobs[a].stack == h.jobs[b].stack && h.jobs[a].rip == h.jobs[b].rip
    requires (h.results[a] == Route && h.results[b] == Route) || (h.results[a].Replay? && h.results[b] != Nothing)
    ensures exists m ::
              a < m < b && h.jobs[m] == Dispatch(h.jobs[a].stack, true, h.jobs[a].rip) && h.results[m] == Armed
  {
    var k, r := h.jobs[a].stack, h.jobs[a].rip;
    ConsumeAnswers(h, a);
    ConsumeAnswers(h, b);
    if h.results[b] == Route {
      var m: nat :| Fresh(h, m, b, k, r);
      assert a < m;
    } else {
      var m: nat, i: nat :| Routed(h, m, i, b, k, r, h.results[b].context);
      var m0: nat, i0: nat :| Routed(h, m0, i0, a, k, r, h.results[a].context);
      assert Fresh(h, m, i, k, r);
      assert i != a ==> i > a && a < m;
      assert i == a ==> !(m < i0 < a) && !(i0 < m);
    }
  }

  /** Job `m` armed the marker that is live at `stack` before job `n`. */
  predicate ArmedLast(h: Life, m: nat, n: nat, stack: nat)
    requires IsLife(h) && n <= |h.jobs|
  {
    && m < n && h.results[m] == Armed && h.jobs[m].stack == stack
    && forall x :: m < x < n ==> !(h.results[x] == Armed && h.jobs[x].stack == stack)
  }

  /** Every live marker has its arming job, and later arming means strictly smaller stack. */
  lemma StacksDecrease(h: Life, n: nat, k1: nat, k2: nat, m1: nat, m2: nat)
    requires IsLife(h) && n <= |h.jobs| && k1 in h.marks[n] && k2 in h.marks[n]
    requires ArmedLast(h, m1, n, k1) && ArmedLast(h, m2, n, k2)
    ensures m1 < m2 <==> k1 > k2
  {
    NothingDeeperSince(h, n, k1, m1);
    NothingDeeperSince(h, n, k2, m2);
    DispatchesArm(h, m1);
    DispatchesArm(h, m2);
  }

  lemma DispatchesArm(h: Life, m: nat)
    requires IsLife(h) && m < |h.jobs| && h.results[m] == Armed
    ensures h.jobs[m].Dispatch?
  {
    assert Allowed(h.jobs[m], h.marks[m], h.results[m], h.marks[m + 1]);
  }

  lemma LiveWasArmed(h: Life, n: nat, k: nat) returns (m: nat)
    requires IsLife(h) && n <= |h.jobs| && k in h.marks[n]
    ensures ArmedLast(h, m, n, k)
    ensures forall x :: m < x < n && h.jobs[x].Dispatch? ==> h.jobs[x].stack < k
  {
    var mark := h.marks[n][k];
    MarksAreRecorded(h, n, k, mark);
    if mark.routed.None? {
      m :| Fresh(h, m, n, k, mark.rip);
    } else {
      var a: nat;
      m, a :| Routed(h, m, a, n, k, mark.rip, mark.routed.value);
      assert Fresh(h, m, a, k, mark.rip);
    }
    forall x | m < x < n ensures !(h.results[x] == Armed && h.jobs[x].stack == k)
                         ensures h.jobs[x].Dispatch? ==> h.jobs[x].stack < k
    {
      if h.results[x] == Armed { DispatchesArm(h, x); }
    }
  }

  lemma NothingDeeperSince(h: Life, n: nat, k: nat, m: nat)
    requires IsLife(h) && n <= |h.jobs| && k in h.marks[n] && ArmedLast(h, m, n, k)
    ensures forall x :: m < x < n && h.jobs[x].Dispatch? ==> h.jobs[x].stack < k
  {
    var m' := LiveWasArmed(h, n, k);
    assert m' == m;
  }
}

module MarkerLog {
  import opened Common
  import opened MarkerSpec
  import opened MarkerRuns
  import opened MarkerHistory

  /** Event `n - 1` ended a job of thread `t`. */
  predicate Finishes(states: seq<State>, events: seq<Event>, t: nat, n: nat)
    requires 0 < n <= |events| && |states| == |events| + 1
  {
    events[n - 1].t == t && t in states[n].threads && states[n].threads[t].pc.Done?
  }

  /** What thread `t` has done and been answered in the first `n` events. */
  ghost function LogOf(states: seq<State>, events: seq<Event>, t: nat, n: nat): (h: Life)
    requires |states| == |events| + 1 && n <= |events|
    ensures |h.marks| > 0
  {
    if n == 0 then Life([], [], [map[]])
    else
      var h := LogOf(states, events, t, n - 1);
      if !Finishes(states, events, t, n) then h
      else
        var th := states[n].threads[t];
        Life(h.jobs + [th.job], h.results + [th.pc.result], h.marks + [MarksOf(states[n], t)])
  }

  /** The markers the thread's current job, if any, started from. */
  function Settled(s: State, t: nat): Marks {
    if PcOf(s, t).Done? then MarksOf(s, t) else s.threads[t].start
  }

  lemma LifeGrows(h: Life, job: Job, result: Result, marks: Marks)
    requires IsLife(h) && Allowed(job, h.marks[|h.marks| - 1], result, marks)
    ensures IsLife(Life(h.jobs + [job], h.results + [result], h.marks + [marks]))
  {
    hide Allowed;
    var h' := Life(h.jobs + [job], h.results + [result], h.marks + [marks]);
    forall i | 0 <= i < |h'.jobs| ensures Allowed(h'.jobs[i], h'.marks[i], h'.results[i], h'.marks[i + 1]) {
      if i < |h.jobs| { assert Allowed(h.jobs[i], h.marks[i], h.results[i], h.marks[i + 1]); }
    }
  }

  /** In every interleaving, each thread's jobs and answers are a history of that thread alone. */
  lemma {:induction false} RunsAreLives(states: seq<State>, events: seq<Event>, t: nat, n: nat)
    requires IsRun(states, events) && n <= |events| && t != 0
    ensures var h := LogOf(states, events, t, n);
            IsLife(h) && h.marks[|h.marks| - 1] == Settled(states[n], t)
  {
    hide Allowed, Shaped, StartPc, StepOf, Init;
    if n == 0 {
      StartsEmpty(states, events, t);
    } else {
      RunsAreLives(states, events, t, n - 1);
      assert Enabled(states[n - 1], events[n - 1]) && states[n] == After(states[n - 1], events[n - 1]);
      if Finishes(states, events, t, n) {
        var h, th := LogOf(states, events, t, n - 1), states[n].threads[t];
        assert th.start == h.marks[|h.marks| - 1];
        JobsAreIsolated(states, events, n, t);
        LifeGrows(h, th.job, th.pc.result, MarksOf(states[n], t));
      }
    }
  }

  lemma StartsEmpty(states: seq<State>, events: seq<Event>, t: nat)
    requires IsRun(states, events)
    ensures Settled(states[0], t) == map[]
  {
  }

  /** The slot's address, phase and saved registers are those of the marker at its stack. */
  predicate ShowsMark(slot: Slot, marks: Marks) {
    slot.stack in marks && marks[slot.stack].rip == slot.rip && PhaseAgrees(slot, marks[slot.stack])
  }

  /** Between its jobs, a thread's markers are exactly the published slots tagged with it. */
  lemma TableHoldsMarks(states: seq<State>, events: seq<Event>, n: nat, t: nat, k: nat)
    requires IsRun(states, events) && n < |states| && t != 0 && PcOf(states[n], t).Done?
    ensures Shaped(states[n].slots)
    ensures k in MarksOf(states[n], t) <==>
            exists i: SlotIndex :: states[n].slots[i].tid == t && states[n].slots[i].stack == k
    ensures forall i: SlotIndex, j: SlotIndex ::
              states[n].slots[i].tid == t == states[n].slots[j].tid ==>
              states[n].slots[i].stack == states[n].slots[j].stack ==> i == j
    ensures forall i: SlotIndex :: states[n].slots[i].tid == t ==> ShowsMark(states[n].slots[i], MarksOf(states[n], t))
  {
    hide SlotsInv, JobInv;
    RunKeepsInv(states, events, n);
    var s := states[n];
    assert ThreadInv(s, t);
    assert forall i: SlotIndex :: Live(t, s.slots, None, i) <==> s.slots[i].tid == t;
    if k in MarksOf(s, t) { var i := SlotOf(t, s.slots, MarksOf(s, t), None, None, k); }
    forall i: SlotIndex | s.slots[i].tid == t ensures ShowsMark(s.slots[i], MarksOf(s, t)) {
      OwnSlot(t, s.slots, MarksOf(s, t), None, None, i);
    }
  }

  /** The event that ended the job logged at position `j`. */
  lemma {:induction false} LoggedAt(states: seq<State>, events: seq<Event>, t: nat, n: nat, j: nat) returns (f: nat)
    requires |states| == |events| + 1 && n <= |events|
    requires j < |LogOf(states, events, t, n).jobs| && j < |LogOf(states, events, t, n).results|
    requires |LogOf(states, events, t, n).jobs| == |LogOf(states, events, t, n).results|
    ensures 0 < f <= n && Finishes(states, events, t, f)
    ensures var th := states[f].threads[t]; var h := LogOf(states, events, t, n);
            th.job == h.jobs[j] && th.pc.result == h.results[j]
  {
    hide Finishes;
    if n > 0 {
      if Finishes(states, events, t, n) && j == |LogOf(states, events, t, n).jobs| - 1 {
        f := n;
      } else {
        f := LoggedAt(states, events, t, n - 1, j);
      }
    }
  }

  /** A life read off a run answers Full only where that call saw every slot of the table taken. */
  lemma FullAnswersSawTaken(states: seq<State>, events: seq<Event>, t: nat, n: nat, j: nat, i: SlotIndex)
    returns (f: nat, m: nat)
    requires IsRun(states, events) && n <= |events| && t != 0
    requires var h := LogOf(states, events, t, n); j < |h.results| && h.results[j] == Full
    ensures m < f <= n && Finishes(states, events, t, f) && j < |LogOf(states, events, t, n).jobs|
    ensures states[f].threads[t].job == LogOf(states, events, t, n).jobs[j]
    ensures SameCall(states, events, t, m, f) && Shaped(states[m].slots) && states[m].slots[i].stack != 0
  {
    hide Enabled, After, Allowed;
    RunsAreLives(states, events, t, n);
    f := LoggedAt(states, events, t, n, j);
    m := FullMeansEverySlotTaken(states, events, f, t, i);
  }
}
