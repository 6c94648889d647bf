/**
 The syscall-thunk tail rewriter: in a whole-file image buffer, every thunk recognised by its head and
 `SystemCall` branch gets the Windows tail, whatever tail it had.
 */
module ThunkTails {
  import opened Common

  const THUNK_LEN: nat := 0x20
  const SERVICE_OFFSET: nat := 4
  const BRANCH_OFFSET: nat := 8
  const TAIL_OFFSET: nat := 0x15
  const THUNK_HEAD: seq<byte> := [0x4c, 0x8b, 0xd1, 0xb8]
  const THUNK_BRANCH: seq<byte> := [0xf6, 0x04, 0x25, 0x08, 0x03, 0xfe, 0x7f, 0x01, 0x75, 0x03, 0x0f, 0x05, 0xc3]
  const WINDOWS_TAIL: seq<byte> := [0xcd, 0x2e, 0xc3, 0x0f, 0x1f, 0x84, 0x00, 0x00, 0x00, 0x00, 0x00]

  /** A complete thunk's head and branch start at `o`. */
  predicate IsThunk(s: seq<byte>, o: nat) {
    && o + THUNK_LEN <= |s|
    && s[o..o + SERVICE_OFFSET] == THUNK_HEAD
    && s[o + BRANCH_OFFSET..o + TAIL_OFFSET] == THUNK_BRANCH
  }

  predicate HasWindowsTail(s: seq<byte>, o: nat)
    requires o + THUNK_LEN <= |s|
  {
    s[o + TAIL_OFFSET..o + THUNK_LEN] == WINDOWS_TAIL
  }

  /** The thunks the left-to-right scan stops at, from offset `o` on. */
  ghost function Scan(s: seq<byte>, o: nat): seq<nat>
    decreases |s| - o
  {
    if o + THUNK_LEN > |s| then []
    else if IsThunk(s, o) then [o] + Scan(s, o + THUNK_LEN)
    else Scan(s, o + 1)
  }

  /** How many scanned thunks lack the Windows tail. */
  ghost function Pending(s: seq<byte>, o: nat): nat
    decreases |s| - o
  {
    if o + THUNK_LEN > |s| then 0
    else if IsThunk(s, o) then (if HasWindowsTail(s, o) then 0 else 1) + Pending(s, o + THUNK_LEN)
    else Pending(s, o + 1)
  }

  /** Every offset at all that looks like a thunk carries the Windows tail. */
  ghost predicate AllWindows(s: seq<byte>) {
    forall o: nat :: IsThunk(s, o) ==> HasWindowsTail(s, o)
  }

  /** A finished thunk hides no other thunk inside it. */
  lemma NoThunkInside(s: seq<byte>, o: nat, d: nat)
    requires IsThunk(s, o) && HasWindowsTail(s, o) && 1 <= d < THUNK_LEN
    ensures !IsThunk(s, o + d)
  {
    if d < SERVICE_OFFSET {
      assert s[o + d] == s[o..o + SERVICE_OFFSET][d];
    } else if d < BRANCH_OFFSET {
      assert s[o + d + BRANCH_OFFSET] == s[o + BRANCH_OFFSET..o + TAIL_OFFSET][d];
    } else if d < TAIL_OFFSET {
      assert s[o + d] == s[o + BRANCH_OFFSET..o + TAIL_OFFSET][d - BRANCH_OFFSET];
    } else {
      assert s[o + d] == s[o + TAIL_OFFSET..o + THUNK_LEN][d - TAIL_OFFSET];
    }
  }

  /** Whether a thunk starts at `o`, and its tail, depend on the 32 bytes there only. */
  lemma ThunkIsLocal(s: seq<byte>, s': seq<byte>, o: nat)
    requires |s| == |s'|
    ensures (forall i :: o <= i < o + TAIL_OFFSET && i < |s| ==> s[i] == s'[i]) ==> IsThunk(s, o) == IsThunk(s', o)
    ensures o + THUNK_LEN <= |s| && s[o..o + THUNK_LEN] == s'[o..o + THUNK_LEN] ==>
              IsThunk(s, o) == IsThunk(s', o) && HasWindowsTail(s, o) == HasWindowsTail(s', o)
  {
    if o + THUNK_LEN <= |s| {
      var a, b := s[o..o + THUNK_LEN], s'[o..o + THUNK_LEN];
      assert s[o..o + SERVICE_OFFSET] == a[..SERVICE_OFFSET] && s'[o..o + SERVICE_OFFSET] == b[..SERVICE_OFFSET];
      assert s[o + BRANCH_OFFSET..o + TAIL_OFFSET] == a[BRANCH_OFFSET..TAIL_OFFSET];
      assert s'[o + BRANCH_OFFSET..o + TAIL_OFFSET] == b[BRANCH_OFFSET..TAIL_OFFSET];
      assert s[o + TAIL_OFFSET..o + THUNK_LEN] == a[TAIL_OFFSET..]
          && s'[o + TAIL_OFFSET..o + THUNK_LEN] == b[TAIL_OFFSET..];
    }
  }

  /** A buffer the rewriter has finished is one it would leave alone. */
  lemma {:induction false} AllWindowsPendsNothing(s: seq<byte>, o: nat)
    requires AllWindows(s)
    ensures Pending(s, o) == 0
    decreases |s| - o
  {
    if o + THUNK_LEN <= |s| {
      AllWindowsPendsNothing(s, if IsThunk(s, o) then o + THUNK_LEN else o + 1);
    }
  }

  method CountPending(buffer: seq<byte>) returns (pending: nat)
    ensures pending == Pending(buffer, 0)
    ensures AllWindows(buffer) ==> pending == 0
  {
    pending := 0;
    var offset := 0;
    while offset + THUNK_LEN <= |buffer|
      invariant pending + Pending(buffer, offset) == Pending(buffer, 0)
      decreases |buffer| - offset
    {
      if IsThunk(buffer, offset) {
        if !HasWindowsTail(buffer, offset) {
          pending := pending + 1;
        }
        offset := offset + THUNK_LEN;
      } else {
        offset := offset + 1;
      }
    }
    if AllWindows(buffer) {
      AllWindowsPendsNothing(buffer, 0);
    }
  }

  /** Bytes before `offset` are finished: every thunk starting there ends there, with the Windows tail. */
  ghost predicate Finished(s: seq<byte>, offset: nat) {
    forall o: nat :: o < offset && IsThunk(s, o) ==> o + THUNK_LEN <= offset && HasWindowsTail(s, o)
  }

  lemma FinishThunk(s: seq<byte>, s': seq<byte>, o: nat)
    requires Finished(s, o) && IsThunk(s, o) && |s'| == |s|
    requires forall i :: 0 <= i < |s| && !(o + TAIL_OFFSET <= i < o + THUNK_LEN) ==> s'[i] == s[i]
    requires HasWindowsTail(s', o)
    ensures Finished(s', o + THUNK_LEN) && IsThunk(s', o)
  {
    ThunkIsLocal(s, s', o);
    forall p: nat | p < o + THUNK_LEN && IsThunk(s', p)
      ensures p + THUNK_LEN <= o + THUNK_LEN && HasWindowsTail(s', p)
    {
      if p < o {
        ThunkIsLocal(s, s', p);
        assert s[p..p + THUNK_LEN] == s'[p..p + THUNK_LEN];
      } else if p > o {
        NoThunkInside(s', o, p - o);
      }
    }
  }

  method WriteTail(buffer: array<byte>, at: nat)
    requires at + |WINDOWS_TAIL| <= buffer.Length
    modifies buffer
    ensures forall i :: 0 <= i < buffer.Length && !(at <= i < at + |WINDOWS_TAIL|) ==> buffer[i] == old(buffer[i])
    ensures buffer[..][at..at + |WINDOWS_TAIL|] == WINDOWS_TAIL
  {
    for j := 0 to |WINDOWS_TAIL|
      invariant forall i :: 0 <= i < buffer.Length && !(at <= i < at + j) ==> buffer[i] == old(buffer[i])
      invariant forall i :: 0 <= i < j ==> buffer[at + i] == WINDOWS_TAIL[i]
    {
      buffer[at + j] := WINDOWS_TAIL[j];
    }
  }

  /** Every byte that changed is in the tail of a thunk already seen. */
  ghost predicate ChangedInTails(s: seq<byte>, was: seq<byte>, seen: seq<nat>) {
    && |s| == |was|
    && forall i :: 0 <= i < |s| && s[i] != was[i] ==> exists o :: o in seen && o + TAIL_OFFSET <= i < o + THUNK_LEN
  }

  lemma TailChange(s: seq<byte>, s': seq<byte>, was: seq<byte>, seen: seq<nat>, o: nat)
    requires ChangedInTails(s, was, seen) && |s'| == |s|
    requires forall i :: 0 <= i < |s| && !(o + TAIL_OFFSET <= i < o + THUNK_LEN) ==> s'[i] == s[i]
    ensures ChangedInTails(s', was, seen + [o])
  {
    assert o in seen + [o];
    forall i | 0 <= i < |s'| && s'[i] != was[i]
      ensures exists p :: p in seen + [o] && p + TAIL_OFFSET <= i < p + THUNK_LEN
    {
      if !(o + TAIL_OFFSET <= i < o + THUNK_LEN) {
        var p :| p in seen && p + TAIL_OFFSET <= i < p + THUNK_LEN;
        assert p in seen + [o];
      }
    }
  }

  /** The scan has finished everything before `offset`, starting from `was`. */
  ghost predicate Progress(s: seq<byte>, was: seq<byte>, offset: nat, seen: seq<nat>, rewritten: nat) {
    && offset <= |s| == |was| && s[offset..] == was[offset..]
    && Finished(s, offset)
    && rewritten + Pending(was, offset) == Pending(was, 0)
    && seen + Scan(was, offset) == Scan(was, 0)
    && ChangedInTails(s, was, seen)
    && (rewritten == 0 ==> s == was)
  }

  lemma AheadUntouched(s: seq<byte>, was: seq<byte>, offset: nat)
    requires offset + THUNK_LEN <= |s| == |was| && s[offset..] == was[offset..]
    ensures IsThunk(s, offset) == IsThunk(was, offset)
    ensures HasWindowsTail(s, offset) == HasWindowsTail(was, offset)
  {
    assert s[offset..offset + THUNK_LEN] == s[offset..][..THUNK_LEN] == was[offset..offset + THUNK_LEN];
    ThunkIsLocal(s, was, offset);
  }

  lemma ByteStep(s: seq<byte>, was: seq<byte>, offset: nat, seen: seq<nat>, rewritten: nat)
    requires Progress(s, was, offset, seen, rewritten) && offset + THUNK_LEN <= |s| && !IsThunk(s, offset)
    ensures Progress(s, was, offset + 1, seen, rewritten)
  {
    AheadUntouched(s, was, offset);
    assert s[offset + 1..] == s[offset..][1..] == was[offset + 1..];
  }

  lemma ThunkStep(s: seq<byte>, s': seq<byte>, was: seq<byte>, offset: nat, seen: seq<nat>, rewritten: nat)
    requires Progress(s, was, offset, seen, rewritten) && IsThunk(s, offset) && |s'| == |s|
    requires forall i :: 0 <= i < |s| && !(offset + TAIL_OFFSET <= i < offset + THUNK_LEN) ==> s'[i] == s[i]
    requires HasWindowsTail(s', offset) && (HasWindowsTail(s, offset) ==> s' == s)
    ensures Progress(s', was, offset + THUNK_LEN, seen + [offset],
                     rewritten + if HasWindowsTail(s, offset) then 0 else 1)
  {
    AheadUntouched(s, was, offset);
    FinishThunk(s, s', offset);
    TailChange(s, s', was, seen, offset);
    assert s[offset + THUNK_LEN..] == s[offset..][THUNK_LEN..] == was[offset + THUNK_LEN..];
    assert s'[offset + THUNK_LEN..] == s[offset + THUNK_LEN..];
    assert seen + ([offset] + Scan(was, offset + THUNK_LEN)) == (seen + [offset]) + Scan(was, offset + THUNK_LEN);
  }

  lemma ScanEnds(s: seq<byte>, was: seq<byte>, offset: nat, seen: seq<nat>, rewritten: nat)
    requires Progress(s, was, offset, seen, rewritten) && offset + THUNK_LEN > |s|
    ensures AllWindows(s) && rewritten == Pending(was, 0) && seen == Scan(was, 0)
  {
  }

  /** Rewrite in place; afterwards nothing anywhere in the buffer lacks the Windows tail. */
  method RewriteTails(buffer: array<byte>) returns (rewritten: nat)
    modifies buffer
    ensures AllWindows(buffer[..])
    ensures rewritten == Pending(old(buffer[..]), 0)
    ensures ChangedInTails(buffer[..], old(buffer[..]), Scan(old(buffer[..]), 0))
    ensures rewritten == 0 ==> buffer[..] == old(buffer[..])
  {
    ghost var was := buffer[..];
    rewritten := 0;
    var offset := 0;
    ghost var seen: seq<nat> := [];
    while offset + THUNK_LEN <= buffer.Length
      invariant offset >= 0 && Progress(buffer[..], was, offset, seen, rewritten)
      decreases buffer.Length - offset
    {
      ghost var s, count := buffer[..], rewritten;
      if IsThunk(buffer[..], offset) {
        if !HasWindowsTail(buffer[..], offset) {
          WriteTail(buffer, offset + TAIL_OFFSET);
          rewritten := rewritten + 1;
        }
        ThunkStep(s, buffer[..], was, offset, seen, count);
        seen := seen + [offset];
        offset := offset + THUNK_LEN;
      } else {
        ByteStep(s, was, offset, seen, rewritten);
        offset := offset + 1;
      }
    }
    ScanEnds(buffer[..], was, offset, seen, rewritten);
  }

  /** The scan finds thunks, from left to right, none overlapping the one before. */
  lemma {:induction false} ScanSound(s: seq<byte>, o: nat)
    ensures forall k :: 0 <= k < |Scan(s, o)| ==> Scan(s, o)[k] >= o && IsThunk(s, Scan(s, o)[k])
    ensures forall k, l :: 0 <= k < l < |Scan(s, o)| ==> Scan(s, o)[k] + THUNK_LEN <= Scan(s, o)[l]
    decreases |s| - o
  {
    hide IsThunk;
    if o + THUNK_LEN <= |s| {
      ScanSound(s, if IsThunk(s, o) then o + THUNK_LEN else o + 1);
    }
  }

  /** It misses only thunks that start inside one it found. */
  lemma {:induction false} ScanCovers(s: seq<byte>, o: nat, p: nat) returns (q: nat)
    requires o <= p && IsThunk(s, p)
    ensures q in Scan(s, o) && q <= p < q + THUNK_LEN
    decreases |s| - o
  {
    if IsThunk(s, o) {
      if p < o + THUNK_LEN {
        q := o;
      } else {
        q := ScanCovers(s, o + THUNK_LEN, p);
      }
    } else {
      q := ScanCovers(s, o + 1, p);
    }
  }

  /** The scanned thunks whose tail is not the Windows one. */
  ghost function PendingThunks(s: seq<byte>, o: nat): set<nat> {
    ScanSound(s, o);
    set p | p in Scan(s, o) && !HasWindowsTail(s, p)
  }

  /** The pending count is the number of those thunks. */
  lemma {:induction false} PendingIsTheirNumber(s: seq<byte>, o: nat)
    ensures Pending(s, o) == |PendingThunks(s, o)|
    decreases |s| - o
  {
    if o + THUNK_LEN <= |s| {
      if IsThunk(s, o) {
        PendingIsTheirNumber(s, o + THUNK_LEN);
        var rest := PendingThunks(s, o + THUNK_LEN);
        ScanSound(s, o + THUNK_LEN);
        assert o !in rest;
        assert PendingThunks(s, o) == if HasWindowsTail(s, o) then rest else rest + {o};
      } else {
        PendingIsTheirNumber(s, o + 1);
        assert PendingThunks(s, o) == PendingThunks(s, o + 1);
      }
    }
  }

  /** Nothing is pending exactly when every thunk anywhere in the buffer has the Windows tail. */
  lemma NothingPendingIff(s: seq<byte>)
    ensures Pending(s, 0) == 0 <==> AllWindows(s)
  {
    hide HasWindowsTail, Scan;
    if AllWindows(s) {
      AllWindowsPendsNothing(s, 0);
    }
    if Pending(s, 0) == 0 {
      PendingIsTheirNumber(s, 0);
      forall p: nat | IsThunk(s, p) ensures HasWindowsTail(s, p) {
        var q := ScanCovers(s, 0, p);
        ScanSound(s, 0);
        assert q !in PendingThunks(s, 0);
        if p != q { NoThunkInside(s, q, p - q); }
      }
    }
  }
}
