/**
 The guarded caller of `patch` across arbitrary forks.  A process owns a copy of the guard's
 owner word and of the patch word; a fork copies both and only an idle thread survives in the
 child, so the child may inherit an owner and an applying word nobody will ever finish.
 */
module GuardedPatch {
  import opened Common
  import opened PatchWords
  import PatchRuns

  /** A patch in progress remembers the word it started on and what its `apply` answered, if it ran. */
  datatype Pc =
    | SawOwner(owner: nat)
    | Recovering
    | Holding
    | Patching(start: nat, call: PatchRuns.Call, answer: Option<bool>)

  /** Threads missing from the map are idle: outside the guard and free to fork. */
  datatype Process = Process(owner: nat, word: nat, threads: map<nat, Pc>)

  type System = map<nat, Process>

  datatype Event =
    | LoadOwner(p: nat, t: nat)
    | CasOwner(p: nat, t: nat)
    | Recover(p: nat, t: nat)
    | BeginPatch(p: nat, t: nat, recipe: Recipe)
    | LoadWord(p: nat, t: nat)
    | CasWord(p: nat, t: nat, spurious: bool)
    | Apply(p: nat, t: nat, ok: bool)
    | StoreWord(p: nat, t: nat)
    | Drop(p: nat, t: nat)
    | Fork(p: nat, child: nat)

  predicate AtPatch(q: Process, t: nat) { t in q.threads && q.threads[t].Patching? }

  predicate Enabled(s: System, e: Event) {
    && e.p in s
    && var q := s[e.p];
       match e
       case LoadOwner(_, t) => t !in q.threads
       case CasOwner(_, t) => t in q.threads && q.threads[t].SawOwner?
       case Recover(_, t) => t in q.threads && q.threads[t].Recovering?
       case BeginPatch(_, t, _) => t in q.threads && q.threads[t].Holding?
       case LoadWord(_, t) => AtPatch(q, t) && q.threads[t].call.pc.Loading?
       case CasWord(_, t, _) => AtPatch(q, t) && q.threads[t].call.pc.Trying?
       case Apply(_, t, _) => AtPatch(q, t) && q.threads[t].call.pc.Applying?
       case StoreWord(_, t) => AtPatch(q, t) && q.threads[t].call.pc.Storing?
       case Drop(_, t) =>
         t in q.threads && (q.threads[t].Holding? || (q.threads[t].Patching? && q.threads[t].call.pc.Done?))
       case Fork(_, child) => child !in s && child != 0
  }

  function Move(q: Process, t: nat, pc: Pc): Process {
    q.(threads := q.threads[t := pc])
  }

  function Leave(q: Process, t: nat): Process {
    q.(threads := q.threads - {t})
  }

  /** One step inside process `e.p`, whose pid the guard records. */
  function Local(s: System, e: Event): Process
    requires Enabled(s, e) && !e.Fork?
  {
    var q := s[e.p];
    match e
    case LoadOwner(pid, t) => if q.owner == pid then q else Move(q, t, SawOwner(q.owner))
    case CasOwner(pid, t) =>
      var saw := q.threads[t].owner;
      if q.owner != saw then Leave(q, t)
      else Move(q, t, if saw != 0 then Recovering else Holding).(owner := pid)
    case Recover(_, t) => Move(q, t, Holding).(word := Recovered(q.word))
    case BeginPatch(_, t, recipe) =>
      Move(q, t, Patching(q.word, PatchRuns.Call(recipe, FailedWord(recipe), 0, PatchRuns.Loading), None))
    case LoadWord(_, t) =>
      var pc := q.threads[t];
      Move(q, t, pc.(call := PatchRuns.LoadStep(pc.call, q.word)))
    case CasWord(_, t, spurious) =>
      var pc := q.threads[t];
      if spurious || q.word != pc.call.pc.current then
        Move(q, t, pc.(call := pc.call.(pc := PatchRuns.Loading)))
      else
        Move(q, t, pc.(call := pc.call.(pc := PatchRuns.Applying(q.word))))
        .(word := ApplyingWord(pc.call.recipe))
    case Apply(_, t, ok) =>
      var pc := q.threads[t];
      var completion := if ok then ReadyWord(pc.call.recipe) else pc.call.completion;
      var call := pc.call.(pc := PatchRuns.Storing(pc.call.pc.claimed, ok), completion := completion);
      Move(q, t, pc.(call := call, answer := Some(ok)))
    case StoreWord(_, t) =>
      var pc := q.threads[t];
      var verdict := if pc.call.pc.ok then Applied else ApplyFailed;
      Move(q, t, pc.(call := pc.call.(pc := PatchRuns.Done(verdict)))).(word := pc.call.completion)
    case Drop(_, t) => Leave(q, t).(owner := 0)
  }

  function After(s: System, e: Event): System
    requires Enabled(s, e)
  {
    match e
    case Fork(p, child) => s[child := s[p].(threads := map[])]
    case _ => s[e.p := Local(s, e)]
  }

  ghost predicate IsRun(states: seq<System>, events: seq<Event>) {
    && |states| == |events| + 1
    && (exists p: nat :: p != 0 && states[0] == map[p := Process(0, UNAPPLIED, map[])])
    && forall i :: 0 <= i < |events| ==> Enabled(states[i], events[i]) && states[i + 1] == After(states[i], events[i])
  }

  predicate Holder(pc: Pc) { !pc.SawOwner? }

  /** The holder's progress: the word is still `start` until it claims it, and it never waited. */
  predicate HolderInv(word: nat, pc: Pc) {
    match pc
    case SawOwner(_) => true
    case Recovering => true
    case Holding => !IsApplying(word)
    case Patching(start, c, answer) =>
      && !IsApplying(start) && ValidWord(start) && c.waits == 0
      && match c.pc
         case Loading => word == start && answer.None? && CompletionInv(c, start)
         case Trying(current) =>
           && word == start == current && answer.None?
           && c.completion == PatchRuns.Restored(c.recipe, start) && MayApply(c.recipe, start)
         case Applying(claimed) =>
           && word == ApplyingWord(c.recipe) && answer.None?
           && c.completion == PatchRuns.Restored(c.recipe, start) && MayApply(c.recipe, start)
         case Storing(_, ok) =>
           && word == ApplyingWord(c.recipe) && MayApply(c.recipe, start) && answer == Some(ok)
           && c.completion == if ok then ReadyWord(c.recipe) else PatchRuns.Restored(c.recipe, start)
         case Done(verdict) =>
           && !IsApplying(word) && (answer.Some? <==> MayApply(c.recipe, start))
           && PatchOutcome(start, c.recipe, answer == Some(true)) == (verdict, word)
  }

  predicate CompletionInv(c: PatchRuns.Call, start: nat) {
    c.completion == FailedWord(c.recipe) || c.completion == PatchRuns.Restored(c.recipe, start)
  }

  predicate MayApply(recipe: Recipe, start: nat) {
    start != ReadyWord(recipe) && PatchOutcome(start, recipe, true).0 == Applied
  }

  predicate ProcessInv(pid: nat, q: Process) {
    && pid != 0 && ValidWord(q.word)
    && (forall t :: t in q.threads ==> HolderInv(q.word, q.threads[t]))
    && (forall t :: t in q.threads && q.threads[t].SawOwner? ==> q.threads[t].owner != pid)
    && (forall t :: t in q.threads && Holder(q.threads[t]) ==> q.owner == pid)
    && (forall t, u :: t in q.threads && u in q.threads && Holder(q.threads[t]) && Holder(q.threads[u]) ==> t == u)
    && (q.owner == pid ==> exists t :: t in q.threads && Holder(q.threads[t]))
    && (IsApplying(q.word) ==> q.owner != 0)
  }

  /** A recorded owner is never a pid that does not exist yet. */
  predicate Inv(s: System) {
    && (forall p :: p in s ==> ProcessInv(p, s[p]))
    && (forall p :: p in s && s[p].owner != 0 ==> s[p].owner in s)
  }

  lemma LocalKeepsInv(s: System, e: Event)
    requires Inv(s) && Enabled(s, e) && !e.Fork?
    ensures ProcessInv(e.p, Local(s, e))
  {
    var q, q' := s[e.p], Local(s, e);
    if e.LoadOwner? || e.CasOwner? {
      OwnerStep(s, e);
    } else if e.Drop? {
      forall u | u in q'.threads ensures q'.threads[u].SawOwner? {
        assert u in q.threads && u != e.t;
      }
    } else {
      HolderStep(s, e);
    }
  }

  lemma OwnerStep(s: System, e: Event)
    requires Inv(s) && Enabled(s, e) && (e.LoadOwner? || e.CasOwner?)
    ensures ProcessInv(e.p, Local(s, e))
  {
    hide ValidWord, IsApplying, HolderInv;
    assert ProcessInv(e.p, s[e.p]);
    OwnerProgress(s, e);
    if e.LoadOwner? || s[e.p].owner != s[e.p].threads[e.t].owner {
      LookKeepsInv(e.p, s[e.p], Local(s, e), e.t);
    } else {
      TakeKeepsInv(e.p, s[e.p], Local(s, e), e.t);
    }
  }

  /** A thread that has only looked at the guard is no holder. */
  lemma LookKeepsInv(pid: nat, q: Process, q': Process, t: nat)
    requires ProcessInv(pid, q) && (t in q.threads ==> q.threads[t].SawOwner?)
    requires q'.word == q.word && q'.owner == q.owner
    requires forall u :: u in q'.threads ==> HolderInv(q'.word, q'.threads[u])
    requires q'.threads == q.threads || q'.threads == q.threads - {t}
        || (q.owner != pid && q'.threads == q.threads[t := SawOwner(q.owner)])
    ensures ProcessInv(pid, q')
  {
    hide HolderInv, ValidWord, IsApplying;
    if q.owner == pid {
      var h :| h in q.threads && Holder(q.threads[h]);
      assert h in q'.threads && Holder(q'.threads[h]);
    }
  }

  /** A thread that takes a guard nobody in the process holds is its only holder. */
  lemma TakeKeepsInv(pid: nat, q: Process, q': Process, t: nat)
    requires ProcessInv(pid, q) && q.owner != pid
    requires q'.word == q.word && q'.owner == pid && t in q'.threads && Holder(q'.threads[t])
    requires q'.threads == q.threads[t := q'.threads[t]]
    requires forall u :: u in q'.threads ==> HolderInv(q'.word, q'.threads[u])
    ensures ProcessInv(pid, q')
  {
    hide HolderInv, ValidWord, IsApplying;
  }

  /** Looking at the guard or taking it leaves the word and everybody's progress as they are. */
  lemma OwnerProgress(s: System, e: Event)
    requires Enabled(s, e) && (e.LoadOwner? || e.CasOwner?) && ProcessInv(e.p, s[e.p])
    ensures var q' := Local(s, e);
            q'.word == s[e.p].word && forall u :: u in q'.threads ==> HolderInv(q'.word, q'.threads[u])
  {
  }

  lemma HolderStep(s: System, e: Event)
    requires Inv(s) && Enabled(s, e) && HolderEvent(e)
    ensures ProcessInv(e.p, Local(s, e))
  {
    hide Local, ValidWord, IsApplying, MayApply, PatchOutcome;
    var q, q' := s[e.p], Local(s, e);
    assert ProcessInv(e.p, q);
    HolderProgress(s, e);
    HolderUpdate(s, e);
    assert e.t in q'.threads && Holder(q'.threads[e.t]);
    forall u | u in q'.threads && u != e.t ensures q'.threads[u].SawOwner? && q'.threads[u] == q.threads[u] {
      assert u in q.threads;
    }
  }

  lemma HolderUpdate(s: System, e: Event)
    requires Enabled(s, e) && HolderEvent(e)
    ensures var q, q' := s[e.p], Local(s, e);
            q'.owner == q.owner && e.t in q'.threads && q'.threads == q.threads[e.t := q'.threads[e.t]]
  {
    hide Recovered, PatchRuns.LoadStep, ApplyingWord, ReadyWord, FailedWord;
  }

  predicate HolderEvent(e: Event) { !e.Fork? && !e.LoadOwner? && !e.CasOwner? && !e.Drop? }

  lemma HolderProgress(s: System, e: Event)
    requires Enabled(s, e) && HolderEvent(e)
    requires ValidWord(s[e.p].word) && HolderInv(s[e.p].word, s[e.p].threads[e.t])
    ensures var q' := Local(s, e);
            HolderInv(q'.word, q'.threads[e.t]) && ValidWord(q'.word) && Holder(q'.threads[e.t])
  {
    if e.LoadWord? {
      LoadProgress(s, e);
    } else if e.StoreWord? {
      var pc, q' := s[e.p].threads[e.t], Local(s, e);
      assert PatchOutcome(pc.start, pc.call.recipe, pc.call.pc.ok) == (q'.threads[e.t].call.pc.verdict, q'.word);
    }
  }

  lemma LoadProgress(s: System, e: Event)
    requires Enabled(s, e) && e.LoadWord?
    requires ValidWord(s[e.p].word) && HolderInv(s[e.p].word, s[e.p].threads[e.t])
    ensures var q' := Local(s, e);
            HolderInv(q'.word, q'.threads[e.t]) && q'.word == s[e.p].word
  {
    var pc, q' := s[e.p].threads[e.t], Local(s, e);
    if q'.threads[e.t].call.pc.Done? {
      assert PatchOutcome(pc.start, pc.call.recipe, true) == (q'.threads[e.t].call.pc.verdict, q'.word);
    }
  }

  /** A child starts with nobody inside the guard and an owner that is not itself. */
  lemma ForkKeepsInv(pid: nat, q: Process, child: nat)
    requires ProcessInv(pid, q) && child != 0 && q.owner != child
    ensures ProcessInv(child, q.(threads := map[]))
  {
  }

  lemma LocalOwner(s: System, e: Event)
    requires Enabled(s, e) && !e.Fork?
    ensures Local(s, e).owner in {0, e.p, s[e.p].owner}
  {
    hide Recovered, PatchRuns.LoadStep, ApplyingWord, ReadyWord, FailedWord;
  }

  lemma StepKeepsInv(s: System, e: Event)
    requires Inv(s) && Enabled(s, e)
    ensures Inv(After(s, e))
  {
    hide ProcessInv, Local;
    assert ProcessInv(e.p, s[e.p]);
    if e.Fork? {
      ForkKeepsInv(e.p, s[e.p], e.child);
    } else {
      LocalKeepsInv(s, e);
      LocalOwner(s, e);
    }
  }

  lemma InitInv(s: System)
    requires exists p: nat :: p != 0 && s == map[p := Process(0, UNAPPLIED, map[])]
    ensures Inv(s)
  {
  }

  lemma {:induction false} RunKeepsInv(states: seq<System>, events: seq<Event>, n: nat)
    requires IsRun(states, events) && n <= |events|
    ensures Inv(states[n])
  {
    hide Inv, Enabled, After;
    if n == 0 {
      InitInv(states[0]);
    } else {
      RunKeepsInv(states, events, n - 1);
      StepKeepsInv(states[n - 1], events[n - 1]);
    }
  }

  /** Across forks, no process ever has two guard holders. */
  lemma OneHolder(states: seq<System>, events: seq<Event>, n: nat, p: nat, t: nat, u: nat)
    requires IsRun(states, events) && n <= |events| && p in states[n]
    requires t in states[n][p].threads && u in states[n][p].threads
    requires Holder(states[n][p].threads[t]) && Holder(states[n][p].threads[u])
    ensures t == u
  {
    RunKeepsInv(states, events, n);
  }

  /** A guarded patch never starts on an applying word, whatever word its process inherited. */
  lemma PatchNeverStartsApplying(states: seq<System>, events: seq<Event>, n: nat)
    requires IsRun(states, events) && n < |events| && events[n].BeginPatch?
    ensures !IsApplying(states[n][events[n].p].word)
  {
    RunKeepsInv(states, events, n);
  }

  /** Inside the guard a load decides at once and a compare-exchange only fails spuriously. */
  lemma HolderDecides(s: System, e: Event)
    requires Enabled(s, e) && ValidWord(s[e.p].word) && (e.LoadWord? || e.CasWord?)
    requires HolderInv(s[e.p].word, s[e.p].threads[e.t])
    ensures e.LoadWord? ==>
              var c := Local(s, e).threads[e.t].call;
              c.waits == 0 && (c.pc.Trying? || c.pc.Done?)
    ensures e.CasWord? && !e.spurious ==> Local(s, e).threads[e.t].call.pc.Applying?
  {
  }

  /** A guarded patch never takes the wait branch and its compare-exchange never loses to another thread. */
  lemma GuardedPatchNeverWaits(states: seq<System>, events: seq<Event>, n: nat)
    requires IsRun(states, events) && n < |events|
    ensures events[n].LoadWord? ==>
              var c := states[n + 1][events[n].p].threads[events[n].t].call;
              c.waits == 0 && (c.pc.Trying? || c.pc.Done?)
    ensures events[n].CasWord? && !events[n].spurious ==>
              states[n + 1][events[n].p].threads[events[n].t].call.pc.Applying?
  {
    hide HolderInv, ValidWord, IsApplying, PatchRuns.LoadStep;
    RunKeepsInv(states, events, n);
    var s, e := states[n], events[n];
    if e.LoadWord? || e.CasWord? {
      assert ProcessInv(e.p, s[e.p]);
      HolderDecides(s, e);
    }
  }

  /** A finished guarded patch behaves as an undisturbed call from the word it started on, with the
      answer its own `apply` gave; `apply` ran exactly if that word allows it. */
  lemma GuardedPatchOutcome(states: seq<System>, events: seq<Event>, n: nat, p: nat, t: nat)
    requires IsRun(states, events) && n <= |events| && p in states[n] && AtPatch(states[n][p], t)
    requires states[n][p].threads[t].call.pc.Done?
    ensures var pc := states[n][p].threads[t];
            && PatchOutcome(pc.start, pc.call.recipe, pc.answer == Some(true)) ==
                (pc.call.pc.verdict, states[n][p].word)
            && (pc.answer.Some? <==> MayApply(pc.call.recipe, pc.start))
  {
    RunKeepsInv(states, events, n);
  }

  /** The guard refuses a caller at its first look only while a live thread of the same process
      holds it; an owner inherited from a vanished process never locks the child out. */
  lemma RefusalHasLiveHolder(states: seq<System>, events: seq<Event>, n: nat)
    requires IsRun(states, events) && n < |events| && events[n].LoadOwner?
    ensures var q := states[n][events[n].p];
            events[n].t !in states[n + 1][events[n].p].threads <==> exists h :: h in q.threads && Holder(q.threads[h])
  {
    RunKeepsInv(states, events, n);
  }

  /** The recipe of the latest successful `apply` in process `p` or, before its fork, in its ancestors. */
  ghost function LastSuccess(states: seq<System>, events: seq<Event>, n: nat, p: nat): Option<Recipe>
    requires n <= |events| < |states|
  {
    if n == 0 then None
    else
      var e, s := events[n - 1], states[n - 1];
      if e.Fork? && e.child == p then LastSuccess(states, events, n - 1, e.p)
      else if e.Apply? && e.ok && e.p == p && p in s && AtPatch(s[p], e.t) then Some(s[p].threads[e.t].call.recipe)
      else LastSuccess(states, events, n - 1, p)
  }

  /** The process that was `p`'s at event `k`: itself, or the ancestor it was forked from later. */
  function Ancestor(events: seq<Event>, n: nat, p: nat, k: nat): nat
    requires k <= n <= |events|
  {
    if n == k then p
    else if events[n - 1].Fork? && events[n - 1].child == p then Ancestor(events, n - 1, events[n - 1].p, k)
    else Ancestor(events, n - 1, p, k)
  }

  lemma {:induction false} LastSuccessAt(states: seq<System>, events: seq<Event>, n: nat, p: nat) returns (k: nat)
    requires n <= |events| < |states| && LastSuccess(states, events, n, p).Some?
    ensures k < n && events[k].Apply? && events[k].ok && events[k].p == Ancestor(events, n, p, k)
    ensures events[k].p in states[k] && AtPatch(states[k][events[k].p], events[k].t)
    ensures states[k][events[k].p].threads[events[k].t].call.recipe == LastSuccess(states, events, n, p).value
  {
    var e, s := events[n - 1], states[n - 1];
    if e.Fork? && e.child == p {
      k := LastSuccessAt(states, events, n - 1, e.p);
    } else if e.Apply? && e.ok && e.p == p && p in s && AtPatch(s[p], e.t) {
      k := n - 1;
    } else {
      k := LastSuccessAt(states, events, n - 1, p);
    }
  }

  predicate ReadyFor(word: nat, last: Option<Recipe>) { last.Some? && word == ReadyWord(last.value) }

  /** A READY word, and an answer Applied, are owed to the latest success. */
  predicate EarnedBy(pc: Pc, last: Option<Recipe>) {
    pc.Patching? ==>
      match pc.call.pc
      case Storing(_, ok) => if ok then last == Some(pc.call.recipe) else IsReady(pc.start) ==> ReadyFor(pc.start, last)
      case Done(verdict) => verdict == Applied ==> last == Some(pc.call.recipe)
      case _ => IsReady(pc.start) ==> ReadyFor(pc.start, last)
  }

  predicate Earned(q: Process, last: Option<Recipe>) {
    && (IsReady(q.word) ==> ReadyFor(q.word, last))
    && (forall t :: t in q.threads ==> EarnedBy(q.threads[t], last))
  }

  function NextSuccess(s: System, e: Event, last: Option<Recipe>): Option<Recipe>
    requires Enabled(s, e)
  {
    if e.Apply? && e.ok then Some(s[e.p].threads[e.t].call.recipe) else last
  }

  /** The acting thread of a guarded patch keeps its own account. */
  lemma HolderEarns(s: System, e: Event, last: Option<Recipe>)
    requires Enabled(s, e) && HolderEvent(e) && Earned(s[e.p], last)
    requires ValidWord(s[e.p].word) && HolderInv(s[e.p].word, s[e.p].threads[e.t])
    ensures var q' := Local(s, e); var last' := NextSuccess(s, e, last);
            e.t in q'.threads && EarnedBy(q'.threads[e.t], last') && (IsReady(q'.word) ==> ReadyFor(q'.word, last'))
  {
    assert EarnedBy(s[e.p].threads[e.t], last);
  }

  lemma EarnedStep(s: System, e: Event, last: Option<Recipe>)
    requires Inv(s) && Enabled(s, e) && !e.Fork? && Earned(s[e.p], last)
    ensures Earned(Local(s, e), NextSuccess(s, e, last))
  {
    hide HolderInv, ReadyFor, IsReady;
    assert ProcessInv(e.p, s[e.p]);
    if HolderEvent(e) {
      HolderEarns(s, e, last);
      HolderUpdate(s, e);
    }
  }

  lemma {:induction false} EarnedThroughout(states: seq<System>, events: seq<Event>, n: nat, p: nat)
    requires IsRun(states, events) && n <= |events| && p in states[n]
    ensures Earned(states[n][p], LastSuccess(states, events, n, p))
  {
    hide Inv, Earned, Local;
    if n == 0 {
      NothingEarned(states[0], p);
    } else {
      var e, s := events[n - 1], states[n - 1];
      RunKeepsInv(states, events, n - 1);
      if e.Fork? && e.child == p {
        EarnedThroughout(states, events, n - 1, e.p);
        ForkEarns(s[e.p], LastSuccess(states, events, n - 1, e.p));
      } else {
        EarnedThroughout(states, events, n - 1, p);
        if e.p == p && !e.Fork? { EarnedStep(s, e, LastSuccess(states, events, n - 1, p)); }
      }
    }
  }

  lemma NothingEarned(s: System, p: nat)
    requires (exists q: nat :: s == map[q := Process(0, UNAPPLIED, map[])]) && p in s
    ensures Earned(s[p], None)
  {
  }

  lemma ForkEarns(q: Process, last: Option<Recipe>)
    requires Earned(q, last)
    ensures Earned(q.(threads := map[]), last)
  {
  }

  /** Across forks, a READY word is the READY word of the latest successful `apply` of that process
      or, before its fork, of its ancestors; a recovered word never passes for READY. */
  lemma ReadyWasApplied(states: seq<System>, events: seq<Event>, n: nat, p: nat) returns (k: nat)
    requires IsRun(states, events) && n <= |events| && p in states[n] && IsReady(states[n][p].word)
    ensures k < n && events[k].Apply? && events[k].ok && events[k].p == Ancestor(events, n, p, k)
    ensures events[k].p in states[k] && AtPatch(states[k][events[k].p], events[k].t)
    ensures states[n][p].word == ReadyWord(states[k][events[k].p].threads[events[k].t].call.recipe)
  {
    hide Enabled, After;
    EarnedThroughout(states, events, n, p);
    k := LastSuccessAt(states, events, n, p);
  }

  /** A guarded patch that answers Applied without running `apply` does so only after a successful
      `apply` of its own recipe, by this process or an ancestor. */
  lemma SilentSuccessWasApplied(states: seq<System>, events: seq<Event>, n: nat, p: nat, t: nat) returns (k: nat)
    requires IsRun(states, events) && n <= |events| && p in states[n] && AtPatch(states[n][p], t)
    requires states[n][p].threads[t].call.pc == PatchRuns.Done(Applied)
    ensures k < n && events[k].Apply? && events[k].ok && events[k].p == Ancestor(events, n, p, k)
    ensures events[k].p in states[k] && AtPatch(states[k][events[k].p], events[k].t)
    ensures states[k][events[k].p].threads[events[k].t].call.recipe == states[n][p].threads[t].call.recipe
  {
    hide Enabled, After;
    EarnedThroughout(states, events, n, p);
    assert EarnedBy(states[n][p].threads[t], LastSuccess(states, events, n, p));
    k := LastSuccessAt(states, events, n, p);
  }

  lemma OwnerFrame(s: System, e: Event, p: nat, t: nat)
    requires Enabled(s, e) && p in s && t in s[p].threads
    requires e.p == p ==> !e.Drop? && !e.CasOwner? && (e.Fork? || e.t != t)
    ensures p in After(s, e) && After(s, e)[p].owner == s[p].owner
    ensures t in After(s, e)[p].threads && After(s, e)[p].threads[t] == s[p].threads[t]
  {
    hide Recovered, PatchRuns.LoadStep, ApplyingWord, ReadyWord, FailedWord;
  }

  /** A thread that has looked at the guard still sees the same owner while no other takes or drops it. */
  lemma {:induction false} OwnerUnmoved(states: seq<System>, events: seq<Event>, l: nat, n: nat, p: nat, t: nat)
    requires IsRun(states, events) && l < n <= |events| && events[l] == LoadOwner(p, t)
    requires states[l][p].owner != p
    requires forall x :: l < x < n && events[x].p == p ==>
               !events[x].Drop? && !events[x].CasOwner? && (events[x].Fork? || events[x].t != t)
    ensures p in states[n] && t in states[n][p].threads
    ensures states[n][p].threads[t] == SawOwner(states[n][p].owner)
    decreases n
  {
    if n > l + 1 {
      hide Enabled, After;
      OwnerUnmoved(states, events, l, n - 1, p, t);
      OwnerFrame(states[n - 1], events[n - 1], p, t);
    }
  }

  /** The guard is lost only to another thread of the same process: if none takes or drops it between a
      look that finds no live holder and the compare-exchange, the caller gets it. */
  lemma AcquireLosesOnlyToOthers(states: seq<System>, events: seq<Event>, l: nat, n: nat, p: nat, t: nat)
    requires IsRun(states, events) && l < n < |events| && events[l] == LoadOwner(p, t) && events[n] == CasOwner(p, t)
    requires states[l][p].owner != p
    requires forall x :: l < x < n && events[x].p == p ==>
               !events[x].Drop? && !events[x].CasOwner? && (events[x].Fork? || events[x].t != t)
    ensures p in states[n + 1] && states[n + 1][p].owner == p
    ensures t in states[n + 1][p].threads && Holder(states[n + 1][p].threads[t])
  {
    OwnerUnmoved(states, events, l, n, p, t);
  }
}
