/**
 The KUSER patch arbiter: one word decides which recipe may be written to the
 shared page.  `PatchState` is the sequential object; `PatchRuns` explores every
 interleaving of concurrent `patch` calls, one atomic access per step.
 */
module PatchWords {
  datatype Recipe = Resume | Selector | Dispatch

  datatype Verdict = Applied | Conflict | ApplyFailed

  const UNAPPLIED: nat := 0
  const RESUME_APPLYING: nat := 1
  const RESUME_READY: nat := 2
  const RESUME_FAILED: nat := 3
  const DISPATCH_APPLYING: nat := 4
  const DISPATCH_READY: nat := 5
  const DISPATCH_FAILED: nat := 6
  const SELECTOR_APPLYING: nat := 7
  const SELECTOR_READY: nat := 8
  const SELECTOR_FAILED: nat := 9
  const WAIT_LIMIT: nat := 4096

  function ApplyingWord(r: Recipe): nat {
    match r case Resume => RESUME_APPLYING case Dispatch => DISPATCH_APPLYING case Selector => SELECTOR_APPLYING
  }

  function ReadyWord(r: Recipe): nat {
    match r case Resume => RESUME_READY case Dispatch => DISPATCH_READY case Selector => SELECTOR_READY
  }

  function FailedWord(r: Recipe): nat {
    match r case Resume => RESUME_FAILED case Dispatch => DISPATCH_FAILED case Selector => SELECTOR_FAILED
  }

  predicate IsApplying(w: nat) { w == RESUME_APPLYING || w == DISPATCH_APPLYING || w == SELECTOR_APPLYING }

  predicate IsReady(w: nat) { w == RESUME_READY || w == DISPATCH_READY || w == SELECTOR_READY }

  predicate IsFailed(w: nat) { w == RESUME_FAILED || w == DISPATCH_FAILED || w == SELECTOR_FAILED }

  predicate ValidWord(w: nat) { w == UNAPPLIED || IsApplying(w) || IsReady(w) || IsFailed(w) }

  /** What one iteration of the arbitration loop does with the word it loaded. */
  datatype Decision = Return(verdict: Verdict) | Wait | Attempt(completion: nat)

  function Decide(recipe: Recipe, current: nat, completion: nat, waits: nat): Decision {
    var applying := ApplyingWord(recipe);
    if current == ReadyWord(recipe) then
      Return(Applied)
    else if (current == DISPATCH_APPLYING || current == SELECTOR_APPLYING) && current != applying then
      if waits == WAIT_LIMIT then Return(Conflict) else Wait
    else if current != UNAPPLIED && !(applying <= current <= FailedWord(recipe)) then
      if recipe != Resume && (IsReady(current) || IsFailed(current)) then Attempt(current) else Return(Conflict)
    else if current == applying then
      if waits == WAIT_LIMIT then Return(Conflict) else Wait
    else
      Attempt(completion)
  }

  /** Reference behaviour of one undisturbed `patch` call: its verdict and the word it leaves. */
  function PatchOutcome(word: nat, recipe: Recipe, applyOk: bool): (Verdict, nat) {
    if word == ReadyWord(recipe) then (Applied, word)
    else if IsApplying(word) then (Conflict, word)
    else if recipe == Resume && word != UNAPPLIED && word != RESUME_FAILED then (Conflict, word)
    else if applyOk then (Applied, ReadyWord(recipe))
    else (ApplyFailed, if word == UNAPPLIED then FailedWord(recipe) else word)
  }

  /** `recover_after_fork` turns an orphaned applying word into the matching failed one. */
  function Recovered(word: nat): nat {
    if IsApplying(word) then word + 2 else word
  }
}

module PatchObject {
  import opened PatchWords

  class PatchState {
    var word: nat

    constructor ()
      ensures word == UNAPPLIED
    {
      word := UNAPPLIED;
    }

    method RecoverAfterFork()
      modifies this
      ensures word == Recovered(old(word))
      ensures word == match old(word) case 1 => 3 case 4 => 6 case 7 => 9 case other => other
      ensures ValidWord(old(word)) ==> ValidWord(word) && !IsApplying(word)
    {
      if word == RESUME_APPLYING {
        word := RESUME_FAILED;
      } else if word == DISPATCH_APPLYING {
        word := DISPATCH_FAILED;
      } else if word == SELECTOR_APPLYING {
        word := SELECTOR_FAILED;
      }
    }

    /** The source's loop, run with no other thread: `spurious` weak compare-exchanges fail
        before one succeeds, and `wait` returns without the word having moved. */
    method Patch(recipe: Recipe, applyOk: bool, spurious: nat) returns (verdict: Verdict, waits: nat)
      requires ValidWord(word)
      modifies this
      ensures (verdict, word) == PatchOutcome(old(word), recipe, applyOk)
      ensures waits == if IsApplying(old(word)) && (recipe == Resume || old(word) != RESUME_APPLYING)
                       then WAIT_LIMIT else 0
    {
      var applying, ready, failed := ApplyingWord(recipe), ReadyWord(recipe), FailedWord(recipe);
      var completion := failed;
      var remaining := spurious;
      waits := 0;
      while true
        invariant word == old(word)
        invariant waits <= WAIT_LIMIT
        invariant waits > 0 ==> IsApplying(word) && (recipe == Resume || word != RESUME_APPLYING)
        invariant completion == failed || (completion == word && IsApplying(word) == false && word != UNAPPLIED)
        decreases WAIT_LIMIT - waits, remaining
      {
        var current := word;
        if current == ready {
          return Applied, waits;
        }
        if (current == DISPATCH_APPLYING || current == SELECTOR_APPLYING) && current != applying {
          if waits == WAIT_LIMIT {
            return Conflict, waits;
          }
          waits := waits + 1;
          continue;
        }
        if current != UNAPPLIED && !(applying <= current <= failed) {
          if recipe == Resume || !(IsReady(current) || IsFailed(current)) {
            return Conflict, waits;
          }
          completion := current;
        }
        if current == applying {
          if waits == WAIT_LIMIT {
            return Conflict, waits;
          }
          waits := waits + 1;
          continue;
        }
        if remaining == 0 {
          word := applying;
          break;
        }
        remaining := remaining - 1;
      }
      if applyOk {
        completion := ready;
        verdict := Applied;
      } else {
        verdict := ApplyFailed;
      }
      word := completion;
    }
  }
}
