/**
 Reading one import descriptor's tables out of process memory: 64-entry bulk reads with a per-entry
 fallback, feeding every hooked slot's destination to the stub set.
 */
module ImportScan {
  import opened Common
  import opened StubSet

  const ADDRESS_SPACE: nat := 0x1_0000_0000_0000_0000
  const IAT_THUNK_CHUNK: nat := 64
  const TRAMPOLINE_HEAD: seq<byte> := [0xff, 0x25, 0x02, 0, 0, 0, 0, 0]

  /** The readable bytes of the process; nothing lies beyond the 64-bit address space. */
  type Memory = m: map<nat, byte> | forall a :: a in m ==> a < ADDRESS_SPACE

  predicate Readable(m: Memory, address: nat, length: nat) {
    address != 0 && length != 0 && forall i :: address <= i < address + length ==> i in m
  }

  function ReadMemory(m: Memory, address: nat, length: nat): Option<seq<byte>> {
    if Readable(m, address, length) then
      Some(seq(length, i requires 0 <= i < length && address + i in m => m[address + i]))
    else None
  }

  function LittleEndian(bytes: seq<byte>): nat {
    if bytes == [] then 0 else bytes[0] + 256 * LittleEndian(bytes[1..])
  }

  function ReadU64(m: Memory, address: nat): Option<nat> {
    var bytes := ReadMemory(m, address, 8);
    if bytes.Some? then Some(LittleEndian(bytes.value)) else None
  }

  /** How many of `count` consecutive words can be read before the first that cannot. */
  function Leading(m: Memory, address: nat, count: nat): (n: nat)
    ensures n <= count
    ensures forall i :: 0 <= i < n ==> ReadU64(m, address + 8 * i).Some?
    ensures n < count ==> ReadU64(m, address + 8 * n).None?
  {
    if count == 0 then 0
    else
      var n := Leading(m, address, count - 1);
      if n == count - 1 && ReadU64(m, address + 8 * n).Some? then count else n
  }

  lemma BulkWord(m: Memory, address: nat, count: nat, i: nat)
    requires i < count && Readable(m, address, count * 8)
    ensures ReadU64(m, address + 8 * i).Some?
    ensures var bytes := ReadMemory(m, address, count * 8).value;
            |bytes| == count * 8 && LittleEndian(bytes[8 * i..8 * i + 8]) == ReadU64(m, address + 8 * i).value
  {
    var bytes := ReadMemory(m, address, count * 8).value;
    assert Readable(m, address + 8 * i, 8);
    assert bytes[8 * i..8 * i + 8] == ReadMemory(m, address + 8 * i, 8).value;
  }

  lemma NothingBeyond(m: Memory, address: nat)
    ensures address >= ADDRESS_SPACE ==> ReadU64(m, address).None?
  {
  }

  /** One bulk read, or one read per word when the span is not fully readable. */
  method ReadU64s(m: Memory, address: nat, output: array<nat>, requested: nat) returns (n: nat)
    requires output.Length == IAT_THUNK_CHUNK && address < ADDRESS_SPACE
    modifies output
    ensures n == Leading(m, address, if requested < IAT_THUNK_CHUNK then requested else IAT_THUNK_CHUNK)
    ensures forall i :: 0 <= i < n ==> output[i] == ReadU64(m, address + 8 * i).value
  {
    hide ReadU64, LittleEndian;
    var count: nat := if requested < output.Length then requested else output.Length;
    var bytes := ReadMemory(m, address, count * 8);
    if bytes.Some? {
      for i := 0 to count
        invariant forall j :: 0 <= j < i ==>
                    ReadU64(m, address + 8 * j).Some? && output[j] == ReadU64(m, address + 8 * j).value
      {
        BulkWord(m, address, count, i);
        output[i] := LittleEndian(bytes.value[8 * i..8 * i + 8]);
      }
      return count;
    }
    for index := 0 to count
      invariant forall j :: 0 <= j < index ==>
                  ReadU64(m, address + 8 * j).Some? && output[j] == ReadU64(m, address + 8 * j).value
    {
      var at: nat := address + index * 8;
      var read := if at < ADDRESS_SPACE then ReadU64(m, at) else None;
      if read.None? {
        NothingBeyond(m, at);
        assert ReadU64(m, address + 8 * index).None?;
        return index;
      }
      output[index] := read.value;
    }
    n := count;
  }

  function Power256(i: nat): nat { if i == 0 then 1 else 256 * Power256(i - 1) }

  /** Byte `i` of a little-endian word has weight 256 to the `i`. */
  lemma {:induction false} LittleEndianByte(bytes: seq<byte>, i: nat)
    requires i < |bytes|
    ensures Power256(i) > 0 && LittleEndian(bytes) / Power256(i) % 256 == bytes[i]
  {
    if i > 0 {
      LittleEndianByte(bytes[1..], i - 1);
      var rest, p := LittleEndian(bytes[1..]), Power256(i - 1);
      DivideTwice(bytes[0], rest, p);
    }
  }

  lemma DivideTwice(low: nat, rest: nat, p: nat)
    requires low < 256 && p > 0
    ensures (low + 256 * rest) / (256 * p) == rest / p
  {
    var q, r := rest / p, rest % p;
    assert low + 256 * rest == 256 * p * q + (256 * r + low);
    assert 0 <= 256 * r + low < 256 * p;
    DivideUnique(low + 256 * rest, 256 * p, q, 256 * r + low);
  }

  lemma DivideUnique(n: nat, d: nat, q: nat, r: nat)
    requires d > 0 && n == d * q + r && r < d
    ensures n / d == q
  {
    var k := n / d;
    assert n == d * k + n % d;
    assert k + 1 <= q ==> d * (k + 1) <= d * q;
    assert q + 1 <= k ==> d * (q + 1) <= d * k;
  }

  /** A word read from memory has exactly the bytes at its address, lowest first. */
  lemma ReadU64Byte(m: Memory, address: nat, i: nat)
    requires i < 8 && ReadU64(m, address).Some?
    ensures address + i in m && Power256(i) > 0
    ensures ReadU64(m, address).value / Power256(i) % 256 == m[address + i]
  {
    LittleEndianByte(ReadMemory(m, address, 8).value, i);
  }

  /** `jmp [rip + 2]` and two zero bytes, followed by the word jumped through. */
  ghost predicate IsTrampoline(m: Memory, slot: nat) {
    && slot != 0 && (forall i :: slot <= i < slot + 16 ==> i in m)
    && m[slot] == 0xff && m[slot + 1] == 0x25 && m[slot + 2] == 2 && m[slot + 3] == 0
    && m[slot + 4] == 0 && m[slot + 5] == 0 && m[slot + 6] == 0 && m[slot + 7] == 0
  }

  /** A slot has a destination exactly if it holds a trampoline, and it is the word jumped through. */
  lemma DestinationIsJumpTarget(m: Memory, slot: nat)
    ensures TrampolineDestination(m, slot).Some? <==> IsTrampoline(m, slot)
    ensures IsTrampoline(m, slot) ==> TrampolineDestination(m, slot) == ReadU64(m, slot + 8)
  {
    if Readable(m, slot, 16) {
      var bytes := ReadMemory(m, slot, 16).value;
      assert forall i :: 0 <= i < 16 ==> bytes[i] == m[slot + i];
      assert Readable(m, slot + 8, 8);
      assert bytes[8..] == ReadMemory(m, slot + 8, 8).value;
      HeadBytes(bytes[..8]);
      assert forall i :: 0 <= i < 8 ==> bytes[..8][i] == m[slot + i];
    }
  }

  lemma HeadBytes(b: seq<byte>)
    requires |b| == 8
    ensures b == TRAMPOLINE_HEAD <==>
            b[0] == 0xff && b[1] == 0x25 && b[2] == 2 && b[3] == b[4] == b[5] == b[6] == b[7] == 0
  {
  }

  function TrampolineDestination(m: Memory, slot: nat): Option<nat> {
    var bytes := ReadMemory(m, slot, 16);
    if bytes.Some? && bytes.value[..8] == TRAMPOLINE_HEAD then Some(LittleEndian(bytes.value[8..])) else None
  }

  ghost function LearnedOne(m: Memory, stubs: set<nat>, value: nat): set<nat> {
    var d := TrampolineDestination(m, value);
    if d.Some? && d.value != 0 && |stubs| < IAT_CAPACITY then stubs + {d.value} else stubs
  }

  /** The reference scan: read both tables one word at a time, in step, until the first zero or
      unreadable word in either, learning the destination of every IAT value on the way. */
  ghost function WordByWord(m: Memory, stubs: set<nat>, lookup: nat, iat: nat, thunk: nat, max: nat): set<nat>
    decreases max - thunk
  {
    if thunk >= max then stubs
    else
      var name, value := ReadU64(m, lookup + 8 * thunk), ReadU64(m, iat + 8 * thunk);
      if name.None? || name.value == 0 || value.None? || value.value == 0 then stubs
      else WordByWord(m, LearnedOne(m, stubs, value.value), lookup, iat, thunk + 1, max)
  }

  function SaturatingAdd(a: nat, b: nat): nat {
    if a + b < ADDRESS_SPACE then a + b else ADDRESS_SPACE - 1
  }

  /** A saturated address reads exactly like the address that overflowed: not at all. */
  lemma SaturationReadsNothing(m: Memory, base: nat, rva: nat, offset: nat, i: nat)
    requires base < ADDRESS_SPACE
    ensures var at := SaturatingAdd(SaturatingAdd(base, rva), offset);
            && ReadU64(m, at + 8 * i).Some? == ReadU64(m, base + rva + offset + 8 * i).Some?
            && (ReadU64(m, at + 8 * i).Some? ==> ReadU64(m, at + 8 * i) == ReadU64(m, base + rva + offset + 8 * i))
  {
    var at := SaturatingAdd(SaturatingAdd(base, rva), offset);
    if base + rva + offset >= ADDRESS_SPACE {
      assert at + 8 * i + 7 !in m && base + rva + offset + 8 * i !in m;
    }
  }

  /** `output` holds what reading one by one from `table + 8 * thunk` gives, for its first `n` words. */
  ghost predicate ChunkOf(m: Memory, table: nat, thunk: nat, count: nat, output: seq<nat>, n: nat) {
    && n <= count <= |output|
    && (forall i :: 0 <= i < n ==> ReadU64(m, table + 8 * (thunk + i)) == Some(output[i]))
    && (n < count ==> ReadU64(m, table + 8 * (thunk + n)).None?)
  }

  lemma ChunkRead(m: Memory, base: nat, rva: nat, thunk: nat, count: nat, output: seq<nat>, n: nat)
    requires base < ADDRESS_SPACE && count <= |output|
    requires var at := SaturatingAdd(SaturatingAdd(base, rva), thunk * 8);
             n == Leading(m, at, count) && forall i :: 0 <= i < n ==> output[i] == ReadU64(m, at + 8 * i).value
    ensures ChunkOf(m, base + rva, thunk, count, output, n)
  {
    var at := SaturatingAdd(SaturatingAdd(base, rva), thunk * 8);
    forall i | 0 <= i < n ensures ReadU64(m, base + rva + 8 * (thunk + i)) == Some(output[i]) {
      SaturationReadsNothing(m, base, rva, thunk * 8, i);
      assert base + rva + thunk * 8 + 8 * i == base + rva + 8 * (thunk + i);
    }
    if n < count {
      SaturationReadsNothing(m, base, rva, thunk * 8, n);
      assert base + rva + thunk * 8 + 8 * n == base + rva + 8 * (thunk + n);
    }
  }

  method ReadChunk(m: Memory, base: nat, rva: nat, thunk: nat, count: nat) returns (words: seq<nat>, n: nat)
    requires base < ADDRESS_SPACE && count <= IAT_THUNK_CHUNK
    ensures n <= |words| && ChunkOf(m, base + rva, thunk, count, words, n)
  {
    var output := new nat[IAT_THUNK_CHUNK](_ => 0);
    n := ReadU64s(m, SaturatingAdd(SaturatingAdd(base, rva), thunk * 8), output, count);
    words := output[..];
    ChunkRead(m, base, rva, thunk, count, words, n);
  }

  method Learn(m: Memory, value: nat, table: StubTable) returns (found: nat)
    requires table.Valid()
    modifies table, table.slots
    ensures table.Valid() && table.View() == LearnedOne(m, old(table.View()), value)
    ensures found + |old(table.View())| == |table.View()|
  {
    found := 0;
    var destination := TrampolineDestination(m, value);
    if destination.Some? {
      var inserted := table.Remember(destination.value);
      if inserted {
        found := 1;
      }
    }
  }

  /** One position of a chunk either ends the reference scan or advances it. */
  lemma ChunkStep(m: Memory, stubs: set<nat>, lookup: nat, iat: nat, thunk: nat, max: nat, count: nat,
                  imports: seq<nat>, importsRead: nat, values: seq<nat>, valuesRead: nat, index: nat)
    requires thunk + count <= max && index < count && index <= importsRead && index <= valuesRead
    requires importsRead <= |imports| && ChunkOf(m, lookup, thunk, count, imports, importsRead)
    requires valuesRead <= |values| && ChunkOf(m, iat, thunk, count, values, valuesRead)
    ensures WordByWord(m, stubs, lookup, iat, thunk + index, max) ==
              if index >= importsRead || imports[index] == 0 || index >= valuesRead || values[index] == 0 then stubs
              else WordByWord(m, LearnedOne(m, stubs, values[index]), lookup, iat, thunk + index + 1, max)
  {
  }

  /** Walk one chunk of both tables; `stopped` when a zero or unreadable word ends the import list. */
  method ScanChunk(m: Memory, ghost lookup: nat, ghost iat: nat, thunk: nat, ghost max: nat, count: nat,
                   imports: seq<nat>, importsRead: nat, values: seq<nat>, valuesRead: nat, table: StubTable)
    returns (found: nat, stopped: bool)
    requires table.Valid() && thunk + count <= max
    requires importsRead <= |imports| && ChunkOf(m, lookup, thunk, count, imports, importsRead)
    requires valuesRead <= |values| && ChunkOf(m, iat, thunk, count, values, valuesRead)
    modifies table, table.slots
    ensures table.Valid() && found + |old(table.View())| == |table.View()|
    ensures WordByWord(m, old(table.View()), lookup, iat, thunk, max) ==
              if stopped then table.View() else WordByWord(m, table.View(), lookup, iat, thunk + count, max)
  {
    hide *;
    found, stopped := 0, false;
    ghost var stubs := table.View();
    for index := 0 to count
      invariant !stopped && table.Valid() && index <= importsRead && index <= valuesRead
      invariant found + |stubs| == |table.View()|
      invariant WordByWord(m, stubs, lookup, iat, thunk, max) ==
          WordByWord(m, table.View(), lookup, iat, thunk + index, max)
    {
      ChunkStep(m, table.View(), lookup, iat, thunk, max, count, imports, importsRead, values, valuesRead, index);
      if index >= importsRead || imports[index] == 0 || index >= valuesRead || values[index] == 0 {
        stopped := true;
        return;
      }
      var learned := Learn(m, values[index], table);
      found := found + learned;
    }
  }

  /** Scan one descriptor: it teaches exactly the stubs that reading word by word would teach. */
  method ScanThunks(m: Memory, imageBase: nat, lookupRva: nat, iatRva: nat, maxThunks: nat, table: StubTable)
    returns (found: nat)
    requires table.Valid() && imageBase < ADDRESS_SPACE
    modifies table, table.slots
    ensures table.Valid() && found + |old(table.View())| == |table.View()|
    ensures table.View() ==
              WordByWord(m, old(table.View()), imageBase + lookupRva, imageBase + iatRva, 0, maxThunks)
  {
    hide WordByWord, ChunkOf, Wellformed;
    found := 0;
    var thunk: nat := 0;
    ghost var lookup: nat, iat: nat, stubs := imageBase + lookupRva, imageBase + iatRva, table.View();
    while thunk < maxThunks
      invariant thunk <= maxThunks && table.Valid()
      invariant found + |stubs| == |table.View()|
      invariant WordByWord(m, stubs, lookup, iat, 0, maxThunks) ==
          WordByWord(m, table.View(), lookup, iat, thunk, maxThunks)
    {
      var count: nat := if maxThunks - thunk < IAT_THUNK_CHUNK then maxThunks - thunk else IAT_THUNK_CHUNK;
      var imports, importsRead := ReadChunk(m, imageBase, lookupRva, thunk, count);
      var values, valuesRead := ReadChunk(m, imageBase, iatRva, thunk, count);
      var more, stopped :=
        ScanChunk(m, lookup, iat, thunk, maxThunks, count, imports, importsRead, values, valuesRead, table);
      found := found + more;
      if stopped {
        return;
      }
      thunk := thunk + count;
    }
    NothingLeft(m, table.View(), lookup, iat, thunk, maxThunks);
  }

  lemma NothingLeft(m: Memory, stubs: set<nat>, lookup: nat, iat: nat, thunk: nat, max: nat)
    requires thunk >= max
    ensures WordByWord(m, stubs, lookup, iat, thunk, max) == stubs
  {
  }

  /** Both tables have a readable, non-zero word at index `i`. */
  predicate Live(m: Memory, lookup: nat, iat: nat, i: nat) {
    && ReadU64(m, lookup + 8 * i).Some? && ReadU64(m, lookup + 8 * i).value != 0
    && ReadU64(m, iat + 8 * i).Some? && ReadU64(m, iat + 8 * i).value != 0
  }

  /** The stub that IAT entry `i` jumps to. */
  ghost predicate Hooked(m: Memory, iat: nat, i: nat, stub: nat) {
    && ReadU64(m, iat + 8 * i).Some? && stub != 0
    && IsTrampoline(m, ReadU64(m, iat + 8 * i).value)
    && ReadU64(m, ReadU64(m, iat + 8 * i).value + 8) == Some(stub)
  }

  /** Entry `i` is reached before any zero or unreadable word of either table and jumps to `stub`. */
  ghost predicate Reached(m: Memory, lookup: nat, iat: nat, from: nat, max: nat, i: nat, stub: nat) {
    from <= i < max && (forall j :: from <= j <= i ==> Live(m, lookup, iat, j)) && Hooked(m, iat, i, stub)
  }

  lemma LearnsHooked(m: Memory, stubs: set<nat>, iat: nat, i: nat)
    requires ReadU64(m, iat + 8 * i).Some?
    ensures var one := LearnedOne(m, stubs, ReadU64(m, iat + 8 * i).value);
            && stubs <= one
            && (forall d :: d in one && d !in stubs ==> Hooked(m, iat, i, d))
            && (|one| < IAT_CAPACITY ==> forall d :: Hooked(m, iat, i, d) ==> d in one)
  {
    hide ReadU64, TrampolineDestination, IsTrampoline;
    DestinationIsJumpTarget(m, ReadU64(m, iat + 8 * i).value);
  }

  /** One entry of the reference scan. */
  lemma WordStep(m: Memory, stubs: set<nat>, lookup: nat, iat: nat, thunk: nat, max: nat)
    ensures WordByWord(m, stubs, lookup, iat, thunk, max) ==
            if thunk < max && Live(m, lookup, iat, thunk)
            then WordByWord(m, LearnedOne(m, stubs, ReadU64(m, iat + 8 * thunk).value), lookup, iat, thunk + 1, max)
            else stubs
  {
    hide ReadU64, LearnedOne;
  }

  lemma {:induction false} ScanKeeps(m: Memory, stubs: set<nat>, lookup: nat, iat: nat, thunk: nat, max: nat)
    ensures stubs <= WordByWord(m, stubs, lookup, iat, thunk, max)
    decreases max - thunk
  {
    hide ReadU64, LearnedOne, WordByWord;
    WordStep(m, stubs, lookup, iat, thunk, max);
    if thunk < max && Live(m, lookup, iat, thunk) {
      LearnsHooked(m, stubs, iat, thunk);
      ScanKeeps(m, LearnedOne(m, stubs, ReadU64(m, iat + 8 * thunk).value), lookup, iat, thunk + 1, max);
    }
  }

  /** The scan learns only stubs of entries it reaches. */
  lemma {:induction false} ScanLearnsOnlyReached(m: Memory, stubs: set<nat>, lookup: nat, iat: nat, thunk: nat,
                                                 max: nat, stub: nat) returns (i: nat)
    requires stub in WordByWord(m, stubs, lookup, iat, thunk, max) && stub !in stubs
    ensures Reached(m, lookup, iat, thunk, max, i, stub)
    decreases max - thunk
  {
    hide ReadU64, LearnedOne, WordByWord, Hooked;
    WordStep(m, stubs, lookup, iat, thunk, max);
    var one := LearnedOne(m, stubs, ReadU64(m, iat + 8 * thunk).value);
    LearnsHooked(m, stubs, iat, thunk);
    if stub in one {
      i := thunk;
    } else {
      i := ScanLearnsOnlyReached(m, one, lookup, iat, thunk + 1, max, stub);
    }
  }

  /** Short of the table's capacity, it learns all of them. */
  lemma {:induction false} ScanLearnsAllReached(m: Memory, stubs: set<nat>, lookup: nat, iat: nat, thunk: nat, max: nat,
                                                i: nat, stub: nat)
    requires Reached(m, lookup, iat, thunk, max, i, stub)
    requires |WordByWord(m, stubs, lookup, iat, thunk, max)| < IAT_CAPACITY
    ensures stub in WordByWord(m, stubs, lookup, iat, thunk, max)
    decreases max - thunk
  {
    hide ReadU64, LearnedOne, WordByWord, Hooked;
    assert Live(m, lookup, iat, thunk);
    WordStep(m, stubs, lookup, iat, thunk, max);
    var one, next := LearnedOne(m, stubs, ReadU64(m, iat + 8 * thunk).value), thunk + 1;
    ScanKeeps(m, one, lookup, iat, next, max);
    if i == thunk {
      SubsetSize(one, WordByWord(m, one, lookup, iat, next, max));
      LearnsHooked(m, stubs, iat, thunk);
    } else {
      ScanLearnsAllReached(m, one, lookup, iat, next, max, i, stub);
    }
  }

  lemma SubsetSize(a: set<nat>, b: set<nat>)
    requires a <= b
    ensures |a| <= |b|
  {
    assert b == a + (b - a);
  }
}
