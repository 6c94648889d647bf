/**
 Every fork-free interleaving of `patch` calls.  Each atomic load, compare-exchange,
 `apply` and final store is one event; a weak compare-exchange may fail spuriously.
 */
module PatchRuns {
  import opened Common
  import opened PatchWords

  datatype Pc =
    | Loading
    | Trying(current: nat)
    | Applying(claimed: nat)
    | Storing(replaced: nat, ok: bool)
    | Done(verdict: Verdict)

  datatype Call = Call(recipe: Recipe, completion: nat, waits: nat, pc: Pc)

  datatype State = State(word: nat, calls: map<nat, Call>)

  datatype Event =
    | Begin(t: nat, recipe: Recipe)
    | Load(t: nat)
    | Cas(t: nat, spurious: bool)
    | Apply(t: nat, ok: bool)
    | Store(t: nat)

  const Initial := State(UNAPPLIED, map[])

  predicate Enabled(s: State, e: Event) {
    match e
    case Begin(t, _) => t in s.calls ==> s.calls[t].pc.Done?
    case Load(t) => t in s.calls && s.calls[t].pc.Loading?
    case Cas(t, _) => t in s.calls && s.calls[t].pc.Trying?
    case Apply(t, _) => t in s.calls && s.calls[t].pc.Applying?
    case Store(t) => t in s.calls && s.calls[t].pc.Storing?
  }

  function Set(s: State, t: nat, c: Call): State {
    s.(calls := s.calls[t := c])
  }

  function LoadStep(c: Call, word: nat): Call {
    match Decide(c.recipe, word, c.completion, c.waits)
    case Return(v) => c.(pc := Done(v))
    case Wait => c.(waits := c.waits + 1)
    case Attempt(completion) => c.(completion := completion, pc := Trying(word))
  }

  function After(s: State, e: Event): State
    requires Enabled(s, e)
  {
    match e
    case Begin(t, recipe) => Set(s, t, Call(recipe, FailedWord(recipe), 0, Loading))
    case Load(t) => Set(s, t, LoadStep(s.calls[t], s.word))
    case Cas(t, spurious) =>
      var c := s.calls[t];
      if spurious || s.word != c.pc.current then
        Set(s, t, c.(pc := Loading))
      else
        Set(s, t, c.(pc := Applying(s.word))).(word := ApplyingWord(c.recipe))
    case Apply(t, ok) =>
      var c := s.calls[t];
      Set(s, t, c.(pc := Storing(c.pc.claimed, ok), completion := if ok then ReadyWord(c.recipe) else c.completion))
    case Store(t) =>
      var c := s.calls[t];
      Set(s, t, c.(pc := Done(if c.pc.ok then Applied else ApplyFailed))).(word := c.completion)
  }

  ghost predicate IsRun(states: seq<State>, events: seq<Event>) {
    && |states| == |events| + 1
    && states[0] == Initial
    && forall i :: 0 <= i < |events| ==> Enabled(states[i], events[i]) && states[i + 1] == After(states[i], events[i])
  }

  /** The recipe of the most recent successful `apply` among the first `n` events. */
  ghost function LastSuccess(states: seq<State>, events: seq<Event>, n: nat): Option<Recipe>
    requires n <= |events| < |states|
  {
    if n == 0 then None
    else if events[n - 1].Apply? && events[n - 1].ok && events[n - 1].t in states[n - 1].calls then
      Some(states[n - 1].calls[events[n - 1].t].recipe)
    else LastSuccess(states, events, n - 1)
  }

  predicate InFlight(c: Call) { c.pc.Applying? || c.pc.Storing? }

  /** An applying word has exactly one call behind it, and that call asked for that recipe. */
  predicate OneOwner(s: State) {
    && (forall t :: t in s.calls && InFlight(s.calls[t]) ==> s.word == ApplyingWord(s.calls[t].recipe))
    && (forall t, u :: t in s.calls && u in s.calls && InFlight(s.calls[t]) && InFlight(s.calls[u]) ==> t == u)
    && (IsApplying(s.word) ==> exists t :: t in s.calls && InFlight(s.calls[t]))
  }

  /** The word a failing apply restores when it replaced `claimed`. */
  function Restored(recipe: Recipe, claimed: nat): nat {
    if claimed == UNAPPLIED then FailedWord(recipe) else claimed
  }

  /** What is known of a call while the settled word (before any success) is `settled`. */
  predicate CallInv(c: Call, settled: nat, last: Option<Recipe>) {
    && c.waits <= WAIT_LIMIT
    && match c.pc
       case Loading => StickyInv(c, settled, last)
       case Trying(current) =>
         && StickyInv(c, settled, last)
         && !IsApplying(current) && current != ReadyWord(c.recipe) && ValidWord(current)
         && (current != UNAPPLIED && current != FailedWord(c.recipe) ==> c.completion == current)
         && PatchOutcome(current, c.recipe, true).0 == Applied
       case Applying(claimed) =>
         && c.completion == Restored(c.recipe, claimed) == settled
         && ClaimInv(c.recipe, claimed, last)
       case Storing(claimed, ok) =>
         && PatchOutcome(claimed, c.recipe, true).0 == Applied
         && claimed != ReadyWord(c.recipe) && !IsApplying(claimed)
         && c.completion == settled
         && if ok then c.completion == ReadyWord(c.recipe) && last == Some(c.recipe)
            else c.completion == Restored(c.recipe, claimed) && ClaimInv(c.recipe, claimed, last)
       case Done(_) => true
  }

  predicate ClaimInv(recipe: Recipe, claimed: nat, last: Option<Recipe>) {
    && !IsApplying(claimed) && ValidWord(claimed) && claimed != ReadyWord(recipe)
    && PatchOutcome(claimed, recipe, true).0 == Applied
    && (last.Some? ==> claimed == ReadyWord(last.value))
    && (last.None? ==> !IsReady(claimed))
  }

  /** A completion kept from an earlier iteration is still the settled word until a success. */
  predicate StickyInv(c: Call, settled: nat, last: Option<Recipe>) {
    && (IsFailed(c.completion) || IsReady(c.completion))
    && (last.None? && c.completion != FailedWord(c.recipe) ==> c.completion == settled)
  }

  predicate Inv(s: State, settled: nat, last: Option<Recipe>) {
    && ValidWord(s.word) && ValidWord(settled) && !IsApplying(settled)
    && OneOwner(s)
    && (!IsApplying(s.word) ==> s.word == settled)
    && (last.Some? && !IsApplying(s.word) ==> s.word == ReadyWord(last.value))
    && (last.None? ==> !IsReady(settled))
    && forall t :: t in s.calls ==> CallInv(s.calls[t], settled, last)
  }

  ghost function NextLast(s: State, e: Event, last: Option<Recipe>): Option<Recipe>
    requires Enabled(s, e)
  {
    if e.Apply? && e.ok then Some(s.calls[e.t].recipe) else last
  }

  ghost function NextSettled(s: State, e: Event, settled: nat): nat
    requires Enabled(s, e)
  {
    match e
    case Cas(t, spurious) =>
      var c := s.calls[t];
      if spurious || s.word != c.pc.current then settled else Restored(c.recipe, s.word)
    case Apply(t, ok) => if ok then ReadyWord(s.calls[t].recipe) else settled
    case _ => settled
  }

  lemma StepKeepsInv(s: State, e: Event, settled: nat, last: Option<Recipe>)
    requires Inv(s, settled, last) && Enabled(s, e)
    ensures Inv(After(s, e), NextSettled(s, e, settled), NextLast(s, e, last))
  {
    match e
    case Begin(t, _) => BeginKeepsInv(s, e, settled, last);
    case Load(t) => LoadKeepsInv(s, e, settled, last);
    case Cas(t, spurious) => CasKeepsInv(s, e, settled, last);
    case Apply(t, ok) => ApplyKeepsInv(s, e, settled, last);
    case Store(t) => StoreKeepsInv(s, e, settled, last);
  }

  lemma BeginKeepsInv(s: State, e: Event, settled: nat, last: Option<Recipe>)
    requires Inv(s, settled, last) && Enabled(s, e) && e.Begin?
    ensures Inv(After(s, e), settled, last)
  {
    var s' := After(s, e);
    if IsApplying(s.word) {
      var o :| o in s.calls && InFlight(s.calls[o]);
      assert o in s'.calls && InFlight(s'.calls[o]);
    }
  }

  lemma LoadKeepsInv(s: State, e: Event, settled: nat, last: Option<Recipe>)
    requires Inv(s, settled, last) && Enabled(s, e) && e.Load?
    ensures Inv(After(s, e), settled, last)
  {
    var s' := After(s, e);
    if IsApplying(s.word) {
      var o :| o in s.calls && InFlight(s.calls[o]);
      assert o in s'.calls && InFlight(s'.calls[o]);
    }
    assert CallInv(s'.calls[e.t], settled, last);
  }

  lemma CasKeepsInv(s: State, e: Event, settled: nat, last: Option<Recipe>)
    requires Inv(s, settled, last) && Enabled(s, e) && e.Cas?
    ensures Inv(After(s, e), NextSettled(s, e, settled), last)
  {
    if e.spurious || s.word != s.calls[e.t].pc.current {
      var s' := After(s, e);
      if IsApplying(s.word) {
        var o :| o in s.calls && InFlight(s.calls[o]);
        assert o in s'.calls && InFlight(s'.calls[o]);
      }
    } else {
      CasWinKeepsInv(s, e, settled, last);
    }
  }

  lemma CasWinKeepsInv(s: State, e: Event, settled: nat, last: Option<Recipe>)
    requires Inv(s, settled, last) && Enabled(s, e) && e.Cas? && !e.spurious && s.word == s.calls[e.t].pc.current
    ensures Inv(After(s, e), NextSettled(s, e, settled), last)
  {
    var s' := After(s, e);
    var c := s.calls[e.t];
    assert s'.calls[e.t].pc.Applying?;
    assert c.completion == Restored(c.recipe, s.word);
    forall u | u in s'.calls ensures CallInv(s'.calls[u], Restored(c.recipe, s.word), last) {
      if u != e.t {
        assert !InFlight(s.calls[u]);
      }
    }
  }

  lemma ApplyKeepsInv(s: State, e: Event, settled: nat, last: Option<Recipe>)
    requires Inv(s, settled, last) && Enabled(s, e) && e.Apply?
    ensures Inv(After(s, e), NextSettled(s, e, settled), NextLast(s, e, last))
  {
    var s' := After(s, e);
    assert s'.calls[e.t].pc.Storing?;
    forall u | u in s'.calls ensures CallInv(s'.calls[u], NextSettled(s, e, settled), NextLast(s, e, last)) {
      if u != e.t {
        assert !InFlight(s.calls[u]);
      }
    }
  }

  lemma StoreKeepsInv(s: State, e: Event, settled: nat, last: Option<Recipe>)
    requires Inv(s, settled, last) && Enabled(s, e) && e.Store?
    ensures Inv(After(s, e), settled, last)
  {
    var s' := After(s, e);
    forall u | u in s'.calls && u != e.t ensures !InFlight(s'.calls[u]) {
      assert u in s.calls;
    }
  }

  /** The settled word after `n` events. */
  ghost function SettledAt(states: seq<State>, events: seq<Event>, n: nat): nat
    requires IsRun(states, events) && n <= |events|
  {
    if n == 0 then UNAPPLIED else NextSettled(states[n - 1], events[n - 1], SettledAt(states, events, n - 1))
  }

  lemma {:induction false} RunKeepsInv(states: seq<State>, events: seq<Event>, n: nat)
    requires IsRun(states, events) && n <= |events|
    ensures Inv(states[n], SettledAt(states, events, n), LastSuccess(states, events, n))
  {
    if n > 0 {
      RunKeepsInv(states, events, n - 1);
      StepKeepsInv(states[n - 1], events[n - 1], SettledAt(states, events, n - 1), LastSuccess(states, events, n - 1));
    }
  }

  /** In every run at most one `apply` is in progress. */
  lemma AtMostOneApply(states: seq<State>, events: seq<Event>, n: nat, t: nat, u: nat)
    requires IsRun(states, events) && n <= |events|
    requires t in states[n].calls && u in states[n].calls
    requires states[n].calls[t].pc.Applying? && states[n].calls[u].pc.Applying?
    ensures t == u
  {
    RunKeepsInv(states, events, n);
  }

  /** Once an `apply` has succeeded the word is an applying word or READY for the latest success. */
  lemma ReadySurvives(states: seq<State>, events: seq<Event>, n: nat)
    requires IsRun(states, events) && n <= |events|
    ensures var last := LastSuccess(states, events, n);
            var word := states[n].word;
            && (last.Some? ==> IsApplying(word) || word == ReadyWord(last.value))
            && (last.None? ==> !IsReady(word))
  {
    RunKeepsInv(states, events, n);
  }

  /** A `patch` answered from the word alone is answered truthfully. */
  lemma ImmediateSuccessIsTrue(states: seq<State>, events: seq<Event>, n: nat)
    requires IsRun(states, events) && n < |events| && events[n].Load?
    requires states[n + 1].calls[events[n].t].pc == Done(Applied)
    ensures LastSuccess(states, events, n) == Some(states[n].calls[events[n].t].recipe)
  {
    RunKeepsInv(states, events, n);
  }

  /** No call waits more often than the limit allows. */
  lemma WaitsAreBounded(states: seq<State>, events: seq<Event>, n: nat, t: nat)
    requires IsRun(states, events) && n <= |events| && t in states[n].calls
    ensures states[n].calls[t].waits <= WAIT_LIMIT
  {
    RunKeepsInv(states, events, n);
  }

  function Claimed(c: Call): nat
    requires InFlight(c)
  {
    if c.pc.Applying? then c.pc.claimed else c.pc.replaced
  }

  /** A call in flight after a step either just won its compare-exchange or already was in flight. */
  lemma FlightStep(s: State, e: Event, settled: nat, last: Option<Recipe>, t: nat)
    requires Inv(s, settled, last) && Enabled(s, e)
    requires t in After(s, e).calls && InFlight(After(s, e).calls[t])
    ensures var c := After(s, e).calls[t];
            && After(s, e).word == ApplyingWord(c.recipe)
            && (e == Cas(t, false) ==> s.word == Claimed(c))
            && (e != Cas(t, false) ==>
                  && t in s.calls && InFlight(s.calls[t])
                  && s.calls[t].recipe == c.recipe && Claimed(s.calls[t]) == Claimed(c))
  {
    hide Inv, NextSettled, NextLast, ApplyingWord, ReadyWord, FailedWord;
    StepKeepsInv(s, e, settled, last);
    FlightWord(After(s, e), NextSettled(s, e, settled), NextLast(s, e, last), t);
  }

  lemma FlightWord(s: State, settled: nat, last: Option<Recipe>, t: nat)
    requires Inv(s, settled, last) && t in s.calls && InFlight(s.calls[t])
    ensures s.word == ApplyingWord(s.calls[t].recipe)
  {
  }

  /** A call in flight won its compare-exchange at some earlier event `k`, found `Claimed` there, and
      from then on the word has not left its own applying value. */
  lemma {:induction false} FlightIsExclusive(states: seq<State>, events: seq<Event>, n: nat, t: nat) returns (k: nat)
    requires IsRun(states, events) && n <= |events|
    requires t in states[n].calls && InFlight(states[n].calls[t])
    ensures k < n && events[k] == Cas(t, false)
    ensures states[k].word == Claimed(states[n].calls[t])
    ensures forall j :: k < j <= n ==> states[j].word == ApplyingWord(states[n].calls[t].recipe)
  {
    hide Inv, After;
    if n == 0 {
      assert false;
    } else {
      RunKeepsInv(states, events, n - 1);
      FlightStep(states[n - 1], events[n - 1], SettledAt(states, events, n - 1), LastSuccess(states, events, n - 1), t);
      if events[n - 1] == Cas(t, false) {
        k := n - 1;
      } else {
        k := FlightIsExclusive(states, events, n - 1, t);
      }
    }
  }

  /** Every concurrent `patch` that reaches `apply` has the verdict and leaves the word of an
      undisturbed call started from the word its compare-exchange replaced: the completion value
      kept across retries never matters. */
  lemma ApplyLinearizes(states: seq<State>, events: seq<Event>, n: nat) returns (k: nat)
    requires IsRun(states, events) && n < |events| && events[n].Store?
    ensures k < n && events[k] == Cas(events[n].t, false)
    ensures var c := states[n].calls[events[n].t];
            && PatchOutcome(states[k].word, c.recipe, c.pc.ok)
               == (states[n + 1].calls[events[n].t].pc.verdict, states[n + 1].word)
            && forall j :: k < j <= n ==> states[j].word == ApplyingWord(c.recipe)
  {
    RunKeepsInv(states, events, n);
    k := FlightIsExclusive(states, events, n, events[n].t);
  }

  predicate PastResume(w: nat) { 4 <= w <= 9 }

  lemma PastResumeStep(s: State, e: Event, settled: nat, last: Option<Recipe>)
    requires Inv(s, settled, last) && Enabled(s, e) && PastResume(settled)
    ensures PastResume(NextSettled(s, e, settled)) && PastResume(s.word)
  {
  }

  lemma {:induction false} SettledPastResume(states: seq<State>, events: seq<Event>, m: nat, n: nat)
    requires IsRun(states, events) && m <= n <= |events|
    requires PastResume(SettledAt(states, events, m))
    ensures PastResume(SettledAt(states, events, n))
    decreases n - m
  {
    hide Inv, After;
    if m < n {
      SettledPastResume(states, events, m, n - 1);
      RunKeepsInv(states, events, n - 1);
      PastResumeStep(states[n - 1], events[n - 1], SettledAt(states, events, n - 1),
                     LastSuccess(states, events, n - 1));
    }
  }

  /** Once the word has settled on another recipe, Resume is refused for the rest of the run:
      every later load by a Resume call ends in Conflict or a bounded wait. */
  lemma ResumeRefusedForever(states: seq<State>, events: seq<Event>, m: nat, n: nat)
    requires IsRun(states, events) && m <= n < |events|
    requires PastResume(states[m].word) && !IsApplying(states[m].word)
    requires events[n].Load? && states[n].calls[events[n].t].recipe == Resume
    ensures var c := states[n + 1].calls[events[n].t];
            c.pc == Done(Conflict) || (c.pc.Loading? && c.waits == states[n].calls[events[n].t].waits + 1 <= WAIT_LIMIT)
  {
    RunKeepsInv(states, events, m);
    RunKeepsInv(states, events, n);
    SettledPastResume(states, events, m, n);
    PastResumeStep(states[n], events[n], SettledAt(states, events, n), LastSuccess(states, events, n));
  }

  /** How many loads of thread `t`'s present call have found some recipe being applied. */
  ghost function Waited(states: seq<State>, events: seq<Event>, t: nat, n: nat): nat
    requires n <= |events| < |states|
  {
    if n == 0 || (events[n - 1].Begin? && events[n - 1].t == t) then 0
    else Waited(states, events, t, n - 1) + One(events[n - 1] == Load(t) && IsApplying(states[n - 1].word))
  }

  lemma WaitStep(s: State, e: Event, t: nat)
    requires Enabled(s, e) && t in After(s, e).calls && !After(s, e).calls[t].pc.Done?
    ensures e.t == t && e.Begin? ==> After(s, e).calls[t].waits == 0
    ensures !(e.t == t && e.Begin?) ==>
              && t in s.calls && !s.calls[t].pc.Done?
              && After(s, e).calls[t].waits == s.calls[t].waits + One(e == Load(t) && IsApplying(s.word))
  {
  }

  lemma {:induction false} WaitsAreCounted(states: seq<State>, events: seq<Event>, t: nat, n: nat)
    requires IsRun(states, events) && n <= |events| && t in states[n].calls && !states[n].calls[t].pc.Done?
    ensures states[n].calls[t].waits == Waited(states, events, t, n)
  {
    hide Enabled, After;
    if n > 0 {
      WaitStep(states[n - 1], events[n - 1], t);
      if !(events[n - 1].Begin? && events[n - 1].t == t) {
        WaitsAreCounted(states, events, t, n - 1);
      }
    }
  }

  /** A concurrent call is refused exactly when it has waited out the limit on a word being applied
      that it may wait for, or finds a word its recipe may not follow: Resume after another recipe has
      settled, another recipe while Resume is being applied. */
  lemma ConflictIff(states: seq<State>, events: seq<Event>, n: nat)
    requires IsRun(states, events) && n < |events| && events[n].Load?
    ensures var t, word := events[n].t, states[n].word;
            states[n + 1].calls[t].pc == Done(Conflict) <==>
              if states[n].calls[t].recipe == Resume then
                word in {5, 6, 8, 9} || (word in {1, 4, 7} && Waited(states, events, t, n) == 4096)
              else
                word == 1 || (word in {4, 7} && Waited(states, events, t, n) == 4096)
  {
    RunKeepsInv(states, events, n);
    WaitsAreCounted(states, events, events[n].t, n);
  }

  /** A call that reached `apply` leaves its READY word if that succeeded; if not, the word it replaced,
      or its FAILED word when nothing had ever been applied. */
  lemma ApplyLeaves(states: seq<State>, events: seq<Event>, n: nat)
    requires IsRun(states, events) && n < |events| && events[n].Store?
    ensures var c := states[n].calls[events[n].t];
            states[n + 1].word ==
            if c.pc.ok then (match c.recipe case Resume => 2 case Dispatch => 5 case Selector => 8)
            else if c.pc.replaced != 0 then c.pc.replaced
            else match c.recipe case Resume => 3 case Dispatch => 6 case Selector => 9
  {
    RunKeepsInv(states, events, n);
    assert CallInv(states[n].calls[events[n].t], SettledAt(states, events, n), LastSuccess(states, events, n));
  }
}
