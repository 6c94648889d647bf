/**
 The duplicate-free history of freed addresses.  `FreeRing` is the plain ring the repository's own
 test compares against; `FreeIndex` is the arithmetic of doubly linked hash chains kept in arrays;
 `History` is the indexed object, proved to answer exactly as the ring does.
 */
module FreeRing {
  const CAPACITY: nat := 1024

  /** Slot value 0 is an empty slot. */
  datatype Ring = Ring(slots: seq<nat>, next: nat)

  const Empty := Ring(seq(CAPACITY, _ => 0), 0)

  datatype Op = Mark(address: nat) | Consume(address: nat)

  predicate DuplicateFree(slots: seq<nat>) {
    forall i, j :: 0 <= i < j < |slots| && slots[i] != 0 ==> slots[i] != slots[j]
  }

  predicate Valid(r: Ring) { |r.slots| == CAPACITY && r.next < CAPACITY }

  /** The first slot holding `address`, or the length. */
  function Find(slots: seq<nat>, address: nat): (i: nat)
    ensures i <= |slots|
    ensures i < |slots| ==> slots[i] == address
    ensures forall j :: 0 <= j < i ==> slots[j] != address
  {
    if slots == [] || slots[0] == address then 0 else 1 + Find(slots[1..], address)
  }

  predicate Holds(r: Ring, address: nat) { address in r.slots }

  function Marked(r: Ring, address: nat): Ring
    requires r.next < |r.slots|
  {
    if Holds(r, address) then r
    else Ring(r.slots[r.next := address], (r.next + 1) % CAPACITY)
  }

  function Consumed(r: Ring, address: nat): Ring {
    var i := Find(r.slots, address);
    if Holds(r, address) && i < |r.slots| then r.(slots := r.slots[i := 0]) else r
  }

  function Apply(r: Ring, op: Op): Ring
    requires r.next < |r.slots|
  {
    match op case Mark(a) => Marked(r, a) case Consume(a) => Consumed(r, a)
  }

  predicate NonNull(ops: seq<Op>) { forall i :: 0 <= i < |ops| ==> ops[i].address != 0 }

  /** The ring after the first `n` operations. */
  function After(r: Ring, ops: seq<Op>, n: nat): (r': Ring)
    requires Valid(r) && n <= |ops|
    ensures Valid(r')
  {
    if n == 0 then r else Apply(After(r, ops, n - 1), ops[n - 1])
  }

  lemma AfterStep(r: Ring, ops: seq<Op>)
    requires Valid(r)
    ensures After(r, ops, 0) == r
    ensures forall n: nat :: n < |ops| ==> After(r, ops, n + 1) == Apply(After(r, ops, n), ops[n])
  {
  }

  /** No address is ever stored twice. */
  lemma {:induction false} StaysDuplicateFree(r: Ring, ops: seq<Op>, n: nat)
    requires Valid(r) && DuplicateFree(r.slots) && n <= |ops| && NonNull(ops)
    ensures DuplicateFree(After(r, ops, n).slots)
  {
    if n > 0 {
      StaysDuplicateFree(r, ops, n - 1);
      OpKeepsDuplicateFree(After(r, ops, n - 1), ops[n - 1]);
    }
  }

  lemma OpKeepsDuplicateFree(r: Ring, op: Op)
    requires Valid(r) && DuplicateFree(r.slots) && op.address != 0
    ensures DuplicateFree(Apply(r, op).slots)
  {
  }

  /** A marked address is held; a consumed one is gone, and consuming touches no other. */
  lemma MarkAndConsume(r: Ring, address: nat)
    requires Valid(r) && DuplicateFree(r.slots) && address != 0
    ensures Holds(Marked(r, address), address) && !Holds(Consumed(r, address), address)
    ensures forall other :: other != 0 && other != address ==> (Holds(Consumed(r, address), other) <==> Holds(r, other))
    ensures forall other :: other != 0 && other != address ==>
              (Holds(Marked(r, address), other) <==>
               Holds(r, other) && (Holds(r, address) || other != r.slots[r.next]))
  {
    var m, c := Marked(r, address), Consumed(r, address);
    if !Holds(r, address) { assert m.slots[r.next] == address; }
    var i := Find(r.slots, address);
    forall other | other != 0 && other != address && Holds(r, other) ensures Holds(c, other) {
      var j :| 0 <= j < |r.slots| && r.slots[j] == other;
      assert c.slots[j] == other;
    }
    forall other | other != 0 && other != address && Holds(r, other) && (Holds(r, address) || other != r.slots[r.next])
      ensures Holds(m, other)
    {
      var j :| 0 <= j < |r.slots| && r.slots[j] == other;
      assert m.slots[j] == other;
    }
    forall j | 0 <= j < |m.slots| && m.slots[j] != 0 && m.slots[j] != address
      ensures Holds(r, m.slots[j]) && (Holds(r, address) || m.slots[j] != r.slots[r.next])
    {
      assert m.slots[j] == r.slots[j];
    }
  }

  /** How many of the first `n` operations marked an address that was not yet held. */
  function NewMarks(r: Ring, ops: seq<Op>, n: nat): nat
    requires Valid(r) && n <= |ops|
  {
    if n == 0 then 0
    else NewMarks(r, ops, n - 1) + if ops[n - 1].Mark? && !Holds(After(r, ops, n - 1), ops[n - 1].address) then 1 else 0
  }

  /** The write position `marks` new marks after slot `slot` was written. */
  function Position(slot: nat, marks: nat): int {
    if slot + 1 + marks < CAPACITY then slot + 1 + marks else slot + 1 + marks - CAPACITY
  }

  lemma OpKeepsSlot(r: Ring, op: Op, slot: nat, marks: nat, address: nat)
    requires Valid(r) && slot < CAPACITY && marks < CAPACITY
    requires address != 0 && r.slots[slot] == address && r.next == Position(slot, marks)
    requires op.address != 0 && op != Consume(address)
    requires op.Mark? && !Holds(r, op.address) ==> marks + 1 < CAPACITY
    ensures Apply(r, op).slots[slot] == address
    ensures Apply(r, op).next == Position(slot, marks + if op.Mark? && !Holds(r, op.address) then 1 else 0)
  {
  }

  /** Until the write position comes round to it, the slot written last keeps its address. */
  lemma {:induction false} MarkedSlotKept(r: Ring, ops: seq<Op>, n: nat, slot: nat, address: nat)
    requires Valid(r) && n <= |ops|
    requires address != 0 && slot < CAPACITY && r.slots[slot] == address && r.next == Position(slot, 0)
    requires NonNull(ops) && Consume(address) !in ops
    requires NewMarks(r, ops, n) < CAPACITY
    ensures After(r, ops, n).slots[slot] == address
    ensures After(r, ops, n).next == Position(slot, NewMarks(r, ops, n))
  {
    if n > 0 {
      MarkedSlotKept(r, ops, n - 1, slot, address);
      OpKeepsSlot(After(r, ops, n - 1), ops[n - 1], slot, NewMarks(r, ops, n - 1), address);
    }
  }

  /** An unconsumed mark survives the next CAPACITY - 1 new marks. */
  lemma MarkSurvives(r: Ring, address: nat, marked: Ring, ops: seq<Op>)
    requires Valid(r) && address != 0 && !Holds(r, address) && marked == Marked(r, address)
    requires NonNull(ops) && Consume(address) !in ops
    requires NewMarks(marked, ops, |ops|) <= CAPACITY - 1
    ensures Holds(After(marked, ops, |ops|), address)
  {
    MarkedSlotKept(marked, ops, |ops|, r.next, address);
  }

  /** The bound is exact: the CAPACITY-th new mark evicts it. */
  lemma NextMarkEvicts(r: Ring, address: nat, marked: Ring, ops: seq<Op>, newcomer: nat)
    requires Valid(r) && address != 0 && !Holds(r, address) && marked == Marked(r, address)
    requires NonNull(ops) && Consume(address) !in ops
    requires NewMarks(marked, ops, |ops|) == CAPACITY - 1
    requires DuplicateFree(r.slots) && !Holds(After(marked, ops, |ops|), newcomer)
    ensures !Holds(Marked(After(marked, ops, |ops|), newcomer), address)
  {
    MarkedSlotKept(marked, ops, |ops|, r.next, address);
    OpKeepsDuplicateFree(r, Mark(address));
    StaysDuplicateFree(marked, ops, |ops|);
    FullTurnEvicts(After(marked, ops, |ops|), r.next, address, newcomer);
  }

  lemma FullTurnEvicts(r: Ring, slot: nat, address: nat, newcomer: nat)
    requires Valid(r) && DuplicateFree(r.slots) && slot < CAPACITY && r.next == Position(slot, CAPACITY - 1)
        && r.slots[slot] == address != 0
    requires !Holds(r, newcomer)
    ensures !Holds(Marked(r, newcomer), address)
  {
    assert r.next == slot;
  }
}

module FreeIndex {
  const BUCKET_COUNT: nat := 4096
  const NO_ENTRY: nat := 65535

  datatype Entry = Entry(address: nat, next: nat, prev: nat)

  const EMPTY := Entry(0, NO_ENTRY, NO_ENTRY)

  type BucketIndex = b: nat | b < BUCKET_COUNT

  type Hash = nat -> BucketIndex

  /** Fibonacci hashing: the top 12 bits of a wrapping 64-bit product. */
  function Bucket(address: nat): BucketIndex {
    (address / 16) * 0x9e37_79b9_7f4a_7c15 % 0x1_0000_0000_0000_0000 / 0x10_0000_0000_0000
  }

  function Link(chain: seq<nat>, k: int): nat {
    if 0 <= k < |chain| then chain[k] else NO_ENTRY
  }

  /** The `k`-th entry of a chain sits in bucket `b` and links both ways to its neighbours. */
  ghost predicate NodeOk(hash: Hash, es: seq<Entry>, chain: seq<nat>, b: nat, k: nat) {
    && k < |chain| && chain[k] < |es|
    && es[chain[k]].address != 0 && hash(es[chain[k]].address) == b
    && es[chain[k]].next == Link(chain, k + 1) && es[chain[k]].prev == Link(chain, k - 1)
  }

  ghost predicate Distinct(chain: seq<nat>) {
    forall j, k :: 0 <= j < k < |chain| ==> chain[j] != chain[k]
  }

  /** `chain` is what following links from a bucket's head visits, with matching back links. */
  ghost predicate ChainOk(hash: Hash, es: seq<Entry>, head: nat, chain: seq<nat>, b: nat) {
    && head == Link(chain, 0)
    && (forall k: nat :: k < |chain| ==> NodeOk(hash, es, chain, b, k))
    && Distinct(chain)
  }

  /** Chains are acyclic, disjoint (each stays in its bucket) and reach every occupied entry. */
  ghost predicate Linked(hash: Hash, es: seq<Entry>, bs: seq<nat>, chains: seq<seq<nat>>) {
    && |es| < NO_ENTRY && |bs| == |chains| == BUCKET_COUNT
    && (forall b :: 0 <= b < BUCKET_COUNT ==> ChainOk(hash, es, bs[b], chains[b], b))
    && (forall i :: 0 <= i < |es| && es[i].address != 0 ==> i in chains[hash(es[i].address)])
  }

  function WithNext(es: seq<Entry>, i: nat, next: nat): seq<Entry> {
    if i < |es| then es[i := es[i].(next := next)] else es
  }

  function WithPrev(es: seq<Entry>, i: nat, prev: nat): seq<Entry> {
    if i < |es| then es[i := es[i].(prev := prev)] else es
  }

  /** The entries with the one at `index` taken out of its chain; NO_ENTRY is no index. */
  function Unlinked(es: seq<Entry>, index: nat): seq<Entry>
    requires index < |es|
  {
    var e := es[index];
    var es' := WithPrev(WithNext(es, e.prev, e.next), e.next, e.prev);
    es'[index := EMPTY]
  }

  /** A chain none of whose entries changed is still a chain. */
  lemma OtherChainKept(hash: Hash, es: seq<Entry>, head: nat, chain: seq<nat>, b: nat, es': seq<Entry>)
    requires ChainOk(hash, es, head, chain, b) && |es'| == |es|
    requires forall i :: 0 <= i < |es| && es[i].address != 0 && hash(es[i].address) == b ==> es'[i] == es[i]
    ensures ChainOk(hash, es', head, chain, b)
  {
    forall k: nat | k < |chain| ensures NodeOk(hash, es', chain, b, k) {
      assert NodeOk(hash, es, chain, b, k);
    }
  }

  lemma UnlinkedAt(hash: Hash, es: seq<Entry>, c: seq<nat>, b: nat, k: nat, i: nat)
    requires k < |c| && i < |c| && |es| < NO_ENTRY && Distinct(c)
    requires forall j: nat :: j < |c| ==> NodeOk(hash, es, c, b, j)
    ensures c[k] < |es| && c[i] < |es|
    ensures i != k ==>
              var e := Unlinked(es, c[k])[c[i]];
              && e.address == es[c[i]].address
              && e.next == (if i + 1 == k then Link(c, k + 1) else Link(c, i + 1))
              && e.prev == (if i == k + 1 then Link(c, k - 1) else Link(c, i - 1))
  {
    assert NodeOk(hash, es, c, b, k) && NodeOk(hash, es, c, b, i);
    if k > 0 { assert NodeOk(hash, es, c, b, k - 1); }
    if k + 1 < |c| { assert NodeOk(hash, es, c, b, k + 1); }
  }

  lemma RemoveFromChain(hash: Hash, es: seq<Entry>, head: nat, c: seq<nat>, b: nat, k: nat)
    requires ChainOk(hash, es, head, c, b) && k < |c| && |es| < NO_ENTRY
    ensures c[k] < |es|
    ensures var e := es[c[k]];
            ChainOk(hash, Unlinked(es, c[k]), if e.prev == NO_ENTRY then e.next else head, c[..k] + c[k + 1..], b)
  {
    assert NodeOk(hash, es, c, b, k);
    UnlinkedAt(hash, es, c, b, k, k);
    var es' := Unlinked(es, c[k]);
    var c' := c[..k] + c[k + 1..];
    if k > 0 { assert NodeOk(hash, es, c, b, k - 1); }
    assert Distinct(c');
    forall j: nat | j < |c'| ensures NodeOk(hash, es', c', b, j) {
      var i := if j < k then j else j + 1;
      assert NodeOk(hash, es, c, b, i);
      UnlinkedAt(hash, es, c, b, k, i);
    }
  }

  /** Taking an entry out of its chain leaves every other entry's address and every other bucket alone. */
  lemma UnlinkedFrame(hash: Hash, es: seq<Entry>, head: nat, c: seq<nat>, b: nat, k: nat)
    requires ChainOk(hash, es, head, c, b) && k < |c| && |es| < NO_ENTRY
    ensures c[k] < |es|
    ensures es[c[k]].prev != NO_ENTRY ==> es[c[k]].prev < |es| && es[c[k]].prev != c[k]
    ensures es[c[k]].next != NO_ENTRY ==> es[c[k]].next < |es| && es[c[k]].next != c[k]
    ensures var es' := Unlinked(es, c[k]);
            && |es'| == |es| && es'[c[k]] == EMPTY
            && (forall i :: 0 <= i < |es| && i != c[k] ==> es'[i].address == es[i].address)
            && (forall i :: 0 <= i < |es| && es[i].address != 0 && hash(es[i].address) != b ==> es'[i] == es[i])
  {
    assert NodeOk(hash, es, c, b, k);
    if k > 0 { assert NodeOk(hash, es, c, b, k - 1); }
    if k + 1 < |c| { assert NodeOk(hash, es, c, b, k + 1); }
  }

  lemma RemoveKeepsLinked(hash: Hash, es: seq<Entry>, bs: seq<nat>, chains: seq<seq<nat>>, b: nat, k: nat)
    requires Linked(hash, es, bs, chains) && b < BUCKET_COUNT && k < |chains[b]|
    ensures var index := chains[b][k];
            && index < |es| && es[index].address != 0 && hash(es[index].address) == b
            && (es[index].prev != NO_ENTRY ==> es[index].prev < |es| && es[index].prev != index)
            && (es[index].next != NO_ENTRY ==> es[index].next < |es| && es[index].next != index)
            && Linked(hash, Unlinked(es, index), if es[index].prev == NO_ENTRY then bs[b := es[index].next] else bs,
                      chains[b := chains[b][..k] + chains[b][k + 1..]])
  {
    var c := chains[b];
    assert ChainOk(hash, es, bs[b], c, b) && NodeOk(hash, es, c, b, k);
    var index := c[k];
    RemoveFromChain(hash, es, bs[b], c, b, k);
    UnlinkedFrame(hash, es, bs[b], c, b, k);
    var es', c' := Unlinked(es, index), c[..k] + c[k + 1..];
    var bs' := if es[index].prev == NO_ENTRY then bs[b := es[index].next] else bs;
    var chains' := chains[b := c'];
    forall d | 0 <= d < BUCKET_COUNT ensures ChainOk(hash, es', bs'[d], chains'[d], d) {
      if d != b {
        OtherChainKept(hash, es, bs[d], chains[d], d, es');
      }
    }
    forall i | 0 <= i < |es'| && es'[i].address != 0 ensures i in chains'[hash(es'[i].address)] {
      assert es'[i].address == es[i].address && i != index;
      if hash(es[i].address) == b {
        var j :| 0 <= j < |c| && c[j] == i;
        assert c'[if j < k then j else j - 1] == i;
      }
    }
  }

  /** A new entry put at the head of its bucket's chain. */
  function Pushed(es: seq<Entry>, index: nat, address: nat, head: nat): seq<Entry>
    requires index < |es| && (head != NO_ENTRY ==> head < |es|)
  {
    var es1 := es[index := Entry(address, head, NO_ENTRY)];
    if head == NO_ENTRY then es1 else es1[head := es1[head].(prev := index)]
  }

  lemma PushOnChain(hash: Hash, es: seq<Entry>, head: nat, c: seq<nat>, b: nat, index: nat, address: nat)
    requires ChainOk(hash, es, head, c, b) && |es| < NO_ENTRY
    requires index < |es| && es[index].address == 0 && address != 0 && hash(address) == b
    ensures head != NO_ENTRY ==> head < |es| && head != index
    ensures ChainOk(hash, Pushed(es, index, address, head), index, [index] + c, b)
  {
    if c != [] { assert NodeOk(hash, es, c, b, 0); }
    var es', c' := Pushed(es, index, address, head), [index] + c;
    forall j: nat | j < |c'| ensures NodeOk(hash, es', c', b, j) && (j > 0 ==> c'[j] != index) {
      if j > 0 {
        assert NodeOk(hash, es, c, b, j - 1);
      }
    }
  }

  lemma InsertKeepsLinked(hash: Hash, es: seq<Entry>, bs: seq<nat>, chains: seq<seq<nat>>, index: nat, address: nat)
    requires Linked(hash, es, bs, chains) && index < |es| && es[index].address == 0 && address != 0
    ensures var b := hash(address);
            && (bs[b] != NO_ENTRY ==> bs[b] < |es| && bs[b] != index)
            && Linked(hash, Pushed(es, index, address, bs[b]), bs[b := index], chains[b := [index] + chains[b]])
  {
    var b: nat := hash(address);
    var c := chains[b];
    assert ChainOk(hash, es, bs[b], c, b);
    PushOnChain(hash, es, bs[b], c, b, index, address);
    if c != [] { assert NodeOk(hash, es, c, b, 0); }
    var es', chains' := Pushed(es, index, address, bs[b]), chains[b := [index] + c];
    forall d | 0 <= d < BUCKET_COUNT ensures ChainOk(hash, es', bs[b := index][d], chains'[d], d) {
      if d != b {
        OtherChainKept(hash, es, bs[d], chains[d], d, es');
      }
    }
    forall i | 0 <= i < |es'| && es'[i].address != 0 ensures i in chains'[hash(es'[i].address)] {
      if i == index {
        assert chains'[b][0] == index;
      } else if hash(es[i].address) == b {
        var j :| 0 <= j < |c| && c[j] == i;
        assert chains'[b][j + 1] == i;
      }
    }
  }
}

module PendingFrees {
  import opened Common
  import opened FreeIndex
  import R = FreeRing

  /** What the ring sees of the entry table. */
  ghost function Addresses(es: seq<Entry>): (slots: seq<nat>)
    ensures |slots| == |es|
  {
    seq(|es|, i requires 0 <= i < |es| => es[i].address)
  }

  lemma UnlinkedAddresses(hash: Hash, es: seq<Entry>, bs: seq<nat>, chains: seq<seq<nat>>, b: nat, k: nat)
    requires Linked(hash, es, bs, chains) && b < BUCKET_COUNT && k < |chains[b]|
    ensures chains[b][k] < |es|
    ensures Addresses(Unlinked(es, chains[b][k])) == Addresses(es)[chains[b][k] := 0]
  {
    assert ChainOk(hash, es, bs[b], chains[b], b);
    UnlinkedFrame(hash, es, bs[b], chains[b], b, k);
  }

  lemma PushedAddresses(es: seq<Entry>, index: nat, address: nat, head: nat)
    requires index < |es| && (head != NO_ENTRY ==> head < |es| && head != index)
    ensures Addresses(Pushed(es, index, address, head)) == Addresses(es)[index := address]
  {
  }

  class History {
    const entries: array<Entry>
    const buckets: array<nat>
    var nextIndex: nat
    ghost var chains: seq<seq<nat>>

    /** The index is sound: acyclic, disjoint, back-linked chains covering the occupied slots. */
    ghost predicate Valid()
      reads this, entries, buckets
    {
      && entries.Length == R.CAPACITY && buckets.Length == BUCKET_COUNT && nextIndex < R.CAPACITY
      && Linked(Bucket, entries[..], buckets[..], chains)
      && R.DuplicateFree(Addresses(entries[..]))
    }

    /** The plain ring this object stands for. */
    ghost function View(): R.Ring
      reads this, entries
    {
      R.Ring(Addresses(entries[..]), nextIndex)
    }

    constructor ()
      ensures Valid() && View() == R.Empty && fresh(entries) && fresh(buckets)
    {
      entries := new Entry[R.CAPACITY](_ => EMPTY);
      buckets := new nat[BUCKET_COUNT](_ => NO_ENTRY);
      nextIndex := 0;
      chains := seq(BUCKET_COUNT, _ => []);
      new;
      forall b | 0 <= b < BUCKET_COUNT ensures ChainOk(Bucket, entries[..], buckets[..][b], chains[b], b) {
      }
    }

    /** Follow the links of the address's bucket; terminates because the chain is acyclic. */
    method Find(address: nat) returns (found: Option<nat>)
      requires Valid() && address != 0
      ensures found.Some? ==> found.value < entries.Length && entries[found.value].address == address
      ensures found.None? ==> address !in View().slots
    {
      ghost var b: nat := Bucket(address);
      ghost var chain := chains[b];
      assert ChainOk(Bucket, entries[..], buckets[..][b], chain, b);
      var index := buckets[Bucket(address)];
      ghost var k := 0;
      while index != NO_ENTRY
        invariant 0 <= k <= |chain| && index == Link(chain, k)
        invariant k < |chain| ==> NodeOk(Bucket, entries[..], chain, b, k)
        invariant forall j :: 0 <= j < k ==> chain[j] < entries.Length && entries[chain[j]].address != address
        decreases |chain| - k
      {
        var entry := entries[index];
        if entry.address == address {
          return Some(index);
        }
        index := entry.next;
        k := k + 1;
      }
      assert k == |chain|;
      assert forall i :: 0 <= i < |entries[..]| && entries[..][i].address == address ==> i in chain;
      found := None;
    }

    /** Unlink an occupied entry and empty it. */
    method Remove(index: nat)
      requires Valid() && index < entries.Length && entries[index].address != 0
      modifies this`chains, entries, buckets
      ensures Valid() && View() == old(View()).(slots := old(View()).slots[index := 0])
    {
      ghost var es: seq<Entry>, bs: seq<nat> := entries[..], buckets[..];
      var entry := entries[index];
      ghost var b: nat := Bucket(entry.address);
      ghost var k :| 0 <= k < |chains[b]| && chains[b][k] == index;
      RemoveKeepsLinked(Bucket, es, bs, chains, b, k);
      UnlinkedAddresses(Bucket, es, bs, chains, b, k);
      if entry.prev == NO_ENTRY {
        buckets[Bucket(entry.address)] := entry.next;
      } else {
        entries[entry.prev] := entries[entry.prev].(next := entry.next);
      }
      assert entries[..] == WithNext(es, entry.prev, entry.next);
      if entry.next != NO_ENTRY {
        entries[entry.next] := entries[entry.next].(prev := entry.prev);
      }
      assert entries[..] == WithPrev(WithNext(es, entry.prev, entry.next), entry.next, entry.prev);
      entries[index] := EMPTY;
      assert entries[..] == Unlinked(es, index);
      assert buckets[..] == if entry.prev == NO_ENTRY then bs[b := entry.next] else bs;
      chains := chains[b := chains[b][..k] + chains[b][k + 1..]];
    }

    /** Put an address not held into an empty slot, at the head of its bucket's chain. */
    method Insert(index: nat, address: nat)
      requires Valid() && index < entries.Length && entries[index].address == 0
      requires address != 0 && !R.Holds(View(), address)
      modifies this`chains, entries, buckets
      ensures Valid() && View() == old(View()).(slots := old(View()).slots[index := address])
    {
      ghost var es: seq<Entry>, bs: seq<nat> := entries[..], buckets[..];
      InsertKeepsLinked(Bucket, es, bs, chains, index, address);
      var bucket: nat := Bucket(address);
      var head := buckets[bucket];
      PushedAddresses(es, index, address, head);
      entries[index] := Entry(address, head, NO_ENTRY);
      if head != NO_ENTRY {
        entries[head] := entries[head].(prev := index);
      }
      buckets[bucket] := index;
      assert entries[..] == Pushed(es, index, address, head);
      assert buckets[..] == bs[bucket := index];
      chains := chains[bucket := [index] + chains[bucket]];
    }

    method SeenOrMark(address: nat) returns (seen: bool)
      requires Valid() && address != 0
      modifies this, entries, buckets
      ensures Valid() && View() == R.Marked(old(View()), address)
      ensures seen == R.Holds(old(View()), address)
    {
      var found := Find(address);
      if found.Some? {
        assert View().slots[found.value] == address;
        return true;
      }
      var index: nat := nextIndex;
      if entries[index].address != 0 {
        Remove(index);
      }
      assert entries[index].address == View().slots[index];
      Insert(index, address);
      assert View().slots == old(View()).slots[index := address];
      nextIndex := (index + 1) % R.CAPACITY;
      seen := false;
    }

    method Consume(address: nat) returns (pending: bool)
      requires Valid() && address != 0
      modifies this, entries, buckets
      ensures Valid() && View() == R.Consumed(old(View()), address)
      ensures pending == R.Holds(old(View()), address)
    {
      var found := Find(address);
      if found.Some? {
        assert View().slots[found.value] == address;
        assert found.value == R.Find(View().slots, address);
        Remove(found.value);
        return true;
      }
      pending := false;
    }
  }

  /** The exported entry points: a null pointer is never pending and never recorded. */
  method MarkPointer(history: History, pointer: nat) returns (seen: bool)
    requires history.Valid()
    modifies history, history.entries, history.buckets
    ensures history.Valid()
    ensures seen == (pointer != 0 && R.Holds(old(history.View()), pointer))
    ensures history.View() == if pointer == 0 then old(history.View()) else R.Marked(old(history.View()), pointer)
  {
    if pointer == 0 {
      return false;
    }
    seen := history.SeenOrMark(pointer);
  }

  method ConsumePointer(history: History, pointer: nat) returns (pending: bool)
    requires history.Valid()
    modifies history, history.entries, history.buckets
    ensures history.Valid()
    ensures pending == (pointer != 0 && R.Holds(old(history.View()), pointer))
    ensures history.View() == if pointer == 0 then old(history.View()) else R.Consumed(old(history.View()), pointer)
  {
    if pointer == 0 {
      return false;
    }
    pending := history.Consume(pointer);
  }

  method Perform(history: History, op: R.Op) returns (answer: bool)
    requires history.Valid() && op.address != 0
    modifies history, history.entries, history.buckets
    ensures history.Valid() && history.View() == R.Apply(old(history.View()), op)
    ensures answer == R.Holds(old(history.View()), op.address)
  {
    if op.Mark? {
      answer := history.SeenOrMark(op.address);
    } else {
      answer := history.Consume(op.address);
    }
  }

  /** A new history answers every sequence of operations as the plain ring does. */
  method Answers(ops: seq<R.Op>) returns (answers: seq<bool>)
    requires R.NonNull(ops)
    ensures |answers| == |ops|
    ensures forall i :: 0 <= i < |ops| ==> answers[i] == R.Holds(R.After(R.Empty, ops, i), ops[i].address)
  {
    hide Linked, Addresses, Bucket, R.DuplicateFree, R.Apply, R.After, R.Holds;
    R.AfterStep(R.Empty, ops);
    var history := new History();
    answers := [];
    for n := 0 to |ops|
      invariant history.Valid() && fresh(history) && fresh(history.entries) && fresh(history.buckets)
      invariant history.View() == R.After(R.Empty, ops, n) && |answers| == n
      invariant forall i :: 0 <= i < n ==> answers[i] == R.Holds(R.After(R.Empty, ops, i), ops[i].address)
    {
      var answer := Perform(history, ops[n]);
      answers := answers + [answer];
    }
  }
}
