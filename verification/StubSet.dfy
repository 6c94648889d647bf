/**
 The open-addressed set of discovered stub addresses: linear probing over twice the capacity, no
 deletion, one writer at a time.
 */
module StubSet {
  const IAT_CAPACITY: nat := 4096
  const IAT_STUB_SLOTS: nat := 8192
  const THUNK_RETURN_OFFSET: nat := 0x1f

  type SlotIndex = i: nat | i < IAT_STUB_SLOTS

  function Start(address: nat): SlotIndex {
    (address / 16) * 0x9e37_79b9_7f4a_7c15 % 0x1_0000_0000_0000_0000 / 0x1_0000_0000 % IAT_STUB_SLOTS
  }

  function Probe(start: SlotIndex, offset: nat): SlotIndex { (start + offset) % IAT_STUB_SLOTS }

  /** The set a slot table stands for. */
  ghost function Stubs(slots: seq<nat>): set<nat> {
    set i | 0 <= i < |slots| && slots[i] != 0 :: slots[i]
  }

  /** The first `n` slots of a probe sequence are taken by addresses other than `address`. */
  ghost predicate Passed(slots: seq<nat>, start: SlotIndex, n: nat, address: nat) {
    |slots| == IAT_STUB_SLOTS && forall p: nat :: p < n ==>
        slots[Probe(start, p)] != 0 && slots[Probe(start, p)] != address
  }

  /** Slot `i` is where the probe for its address first finds that address. */
  ghost predicate Reachable(slots: seq<nat>, start: nat -> SlotIndex, i: SlotIndex) {
    && |slots| == IAT_STUB_SLOTS
    && exists n: nat ::
         n < IAT_STUB_SLOTS && Probe(start(slots[i]), n) == i && Passed(slots, start(slots[i]), n, slots[i])
  }

  ghost predicate Wellformed(slots: seq<nat>, start: nat -> SlotIndex) {
    && |slots| == IAT_STUB_SLOTS
    && (forall i: SlotIndex :: slots[i] != 0 ==> Reachable(slots, start, i))
    && (forall i, j :: 0 <= i < j < |slots| && slots[i] != 0 ==> slots[i] != slots[j])
  }

  /** Every slot is on every probe sequence. */
  lemma ProbeCovers(start: SlotIndex, i: SlotIndex) returns (n: nat)
    ensures n < IAT_STUB_SLOTS && Probe(start, n) == i
  {
    n := if i >= start then i - start else i + IAT_STUB_SLOTS - start;
  }

  lemma {:induction false} FullTableIsLarge(slots: seq<nat>)
    requires forall i :: 0 <= i < |slots| ==> slots[i] != 0
    requires forall i, j :: 0 <= i < j < |slots| ==> slots[i] != slots[j]
    ensures |Stubs(slots)| == |slots|
  {
    if slots != [] {
      var last := |slots| - 1;
      FullTableIsLarge(slots[..last]);
      assert Stubs(slots) == Stubs(slots[..last]) + {slots[last]};
    }
  }

  /** At most half the table is used, so a probe that passed everything cannot exist. */
  lemma ProbeEnds(slots: seq<nat>, start: nat -> SlotIndex, s: SlotIndex, address: nat)
    requires Wellformed(slots, start) && |Stubs(slots)| <= IAT_CAPACITY
    ensures !Passed(slots, s, IAT_STUB_SLOTS, address)
  {
    if Passed(slots, s, IAT_STUB_SLOTS, address) {
      forall i: SlotIndex ensures slots[i] != 0 {
        var n := ProbeCovers(s, i);
      }
      FullTableIsLarge(slots);
    }
  }

  /** A probe that stops at an empty slot proves the address absent. */
  lemma EmptySlotMeansAbsent(slots: seq<nat>, start: nat -> SlotIndex, n: nat, address: nat)
    requires Wellformed(slots, start) && address != 0 && n < IAT_STUB_SLOTS
    requires Passed(slots, start(address), n, address) && slots[Probe(start(address), n)] == 0
    ensures address !in Stubs(slots)
  {
    forall i: SlotIndex | slots[i] != 0 ensures slots[i] != address {
      assert Reachable(slots, start, i);
      var m: nat :| m < IAT_STUB_SLOTS && Probe(start(slots[i]), m) == i && Passed(slots, start(slots[i]), m, slots[i]);
    }
  }

  lemma InsertKeepsWellformed(slots: seq<nat>, start: nat -> SlotIndex, n: nat, address: nat)
    requires Wellformed(slots, start) && address != 0 && n < IAT_STUB_SLOTS
    requires Passed(slots, start(address), n, address) && slots[Probe(start(address), n)] == 0
    ensures var slots' := slots[Probe(start(address), n) := address];
            Wellformed(slots', start) && Stubs(slots') == Stubs(slots) + {address} && address !in Stubs(slots)
  {
    EmptySlotMeansAbsent(slots, start, n, address);
    var at: SlotIndex := Probe(start(address), n);
    var slots' := slots[at := address];
    assert address in Stubs(slots') by {
      assert slots'[at] == address;
    }
    forall i: SlotIndex | slots'[i] != 0 ensures Reachable(slots', start, i) {
      if i == at {
        assert Passed(slots', start(address), n, address);
      } else {
        assert Reachable(slots, start, i);
        var m: nat :| m < IAT_STUB_SLOTS && Probe(start(slots[i]), m) == i
            && Passed(slots, start(slots[i]), m, slots[i]);
        assert slots[i] in Stubs(slots);
        assert Passed(slots', start(slots'[i]), m, slots'[i]);
      }
    }
    assert forall i :: 0 <= i < |slots| && slots[i] != 0 ==> slots[i] in Stubs(slots);
    forall a ensures a in Stubs(slots') <==> a in Stubs(slots) + {address} {
      if a in Stubs(slots) {
        var i :| 0 <= i < |slots| && slots[i] != 0 && slots[i] == a;
        assert slots'[i] == a;
      }
    }
  }

  class StubTable {
    const slots: array<nat>
    var count: nat

    ghost predicate Valid()
      reads this, slots
    {
      && slots.Length == IAT_STUB_SLOTS && Wellformed(slots[..], Start)
      && count == |View()| <= IAT_CAPACITY
    }

    ghost function View(): set<nat>
      reads this, slots
    {
      Stubs(slots[..])
    }

    constructor ()
      ensures Valid() && View() == {} && fresh(slots)
    {
      slots := new nat[IAT_STUB_SLOTS](_ => 0);
      count := 0;
    }

    /** Insert unless null, already present or at capacity. */
    method Remember(address: nat) returns (inserted: bool)
      requires Valid()
      modifies this, slots
      ensures Valid()
      ensures inserted == (address != 0 && address !in old(View()) && |old(View())| < IAT_CAPACITY)
      ensures View() == if inserted then old(View()) + {address} else old(View())
    {
      if address == 0 || count >= IAT_CAPACITY {
        return false;
      }
      ghost var was := slots[..];
      for offset := 0 to IAT_STUB_SLOTS
        invariant slots[..] == was && count == |Stubs(was)|
        invariant Passed(was, Start(address), offset, address)
      {
        var index := Probe(Start(address), offset);
        var existing := slots[index];
        if existing == 0 {
          InsertKeepsWellformed(was, Start, offset, address);
          slots[index] := address;
          assert slots[..] == was[index := address];
          count := count + 1;
          return true;
        }
        if existing == address {
          assert was[index] == address;
          return false;
        }
      }
      ProbeEnds(was, Start, Start(address), address);
      inserted := false;
    }

    /** Whether a call returning to `returnAddress` came from a remembered stub. */
    method MatchesIatStub(returnAddress: nat) returns (matches: bool)
      requires Valid()
      ensures matches <==> returnAddress >= 0x1f && returnAddress - 0x1f in View()
    {
      if count == 0 {
        return false;
      }
      if returnAddress <= THUNK_RETURN_OFFSET {
        return false;
      }
      var stub: nat := returnAddress - THUNK_RETURN_OFFSET;
      for offset := 0 to IAT_STUB_SLOTS
        invariant Passed(slots[..], Start(stub), offset, stub)
      {
        var entry := slots[Probe(Start(stub), offset)];
        if entry == 0 {
          EmptySlotMeansAbsent(slots[..], Start, offset, stub);
          return false;
        }
        if entry == stub {
          assert slots[..][Probe(Start(stub), offset)] == stub;
          return true;
        }
      }
      ProbeEnds(slots[..], Start, Start(stub), stub);
      matches := false;
    }
  }
}
