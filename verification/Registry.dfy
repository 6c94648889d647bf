/**
 The streaming search of `system.reg`: a 64-byte window slides over the file, however it is split into
 reads, looking for the hardware-profile section and then for the GUID key behind it.
 */
module Registry {
  import opened Common

  const WINDOW: nat := 64
  /** `Hardware Profiles\\0001`, with two backslashes as the registry file stores it. */
  const PROFILE_MARKER: seq<byte> :=
    [0x48, 0x61, 0x72, 0x64, 0x77, 0x61, 0x72, 0x65, 0x20, 0x50, 0x72, 0x6f, 0x66, 0x69, 0x6c, 0x65, 0x73,
     0x5c, 0x5c, 0x30, 0x30, 0x30, 0x31]
  /** `HwProfileGuid` */
  const GUID_MARKER: seq<byte> := [0x48, 0x77, 0x50, 0x72, 0x6f, 0x66, 0x69, 0x6c, 0x65, 0x47, 0x75, 0x69, 0x64]

  predicate OccursAt(haystack: seq<byte>, needle: seq<byte>, i: int) {
    0 <= i <= |haystack| - |needle| && haystack[i..i + |needle|] == needle
  }

  predicate Contains(haystack: seq<byte>, needle: seq<byte>) {
    exists i :: 0 <= i <= |haystack| && OccursAt(haystack, needle, i)
  }

  /** The profile marker occurs and the GUID marker occurs behind it, not overlapping it. */
  ghost predicate Present(content: seq<byte>) {
    exists i, j :: OccursAt(content, PROFILE_MARKER, i) && OccursAt(content, GUID_MARKER, j)
        && i + |PROFILE_MARKER| <= j
  }

  function Content(chunks: seq<seq<byte>>): seq<byte> {
    if chunks == [] then [] else chunks[0] + Content(chunks[1..])
  }

  function Min(a: nat, b: nat): nat { if a < b then a else b }

  /** The last `n` bytes. */
  function Last(s: seq<byte>, n: nat): seq<byte>
    requires n <= |s|
  {
    s[|s| - n..]
  }

  lemma OccursInPrefix(s: seq<byte>, t: seq<byte>, needle: seq<byte>, i: int)
    requires OccursAt(s, needle, i)
    ensures OccursAt(s + t, needle, i)
  {
    assert (s + t)[i..i + |needle|] == s[i..i + |needle|];
  }

  lemma OccursWithout(before: seq<byte>, b: byte, needle: seq<byte>, i: int)
    requires OccursAt(before + [b], needle, i)
    ensures i + |needle| <= |before| ==> OccursAt(before, needle, i)
  {
    assert i + |needle| <= |before| ==> (before + [b])[i..i + |needle|] == before[i..i + |needle|];
  }

  lemma OccursInSuffix(s: seq<byte>, e: nat, needle: seq<byte>, i: int)
    requires e <= |s|
    ensures i >= e ==> (OccursAt(s, needle, i) <==> OccursAt(s[e..], needle, i - e))
  {
    if i >= e && i + |needle| <= |s| {
      assert s[i..i + |needle|] == s[e..][i - e..i - e + |needle|];
    }
  }

  /** If the needle was not there before the last byte, a window as long as the needle decides. */
  lemma WindowDecides(before: seq<byte>, b: byte, needle: seq<byte>, n: nat)
    requires needle != [] && !Contains(before, needle)
    requires Min(|needle|, |before| + 1) <= n <= |before| + 1
    ensures Contains(Last(before + [b], n), needle) <==> Contains(before + [b], needle)
    ensures forall i :: OccursAt(before + [b], needle, i) ==> i + |needle| == |before| + 1
  {
    var s := before + [b];
    var e := |s| - n;
    forall i | OccursAt(s, needle, i) ensures i + |needle| == |s| {
      OccursWithout(before, b, needle, i);
    }
    if Contains(s[e..], needle) {
      var k :| 0 <= k <= |s[e..]| && OccursAt(s[e..], needle, k);
      OccursInSuffix(s, e, needle, e + k);
    }
    if Contains(s, needle) {
      var k :| 0 <= k <= |s| && OccursAt(s, needle, k);
      OccursInSuffix(s, e, needle, k);
    }
  }

  /** What the scan knows after reading `read`: where the first profile marker ended, if it did, and
      that the marker it is looking for now has not been seen since. */
  ghost predicate Known(read: seq<byte>, inProfile: bool, end: nat) {
    && end <= |read|
    && (!inProfile ==> end == 0 && !Contains(read, PROFILE_MARKER))
    && (inProfile ==>
          && OccursAt(read, PROFILE_MARKER, end - |PROFILE_MARKER|)
          && (forall i :: OccursAt(read, PROFILE_MARKER, i) ==> end <= i + |PROFILE_MARKER|)
          && !Contains(read[end..], GUID_MARKER))
  }

  lemma NotFoundMeansAbsent(read: seq<byte>, inProfile: bool, end: nat)
    requires Known(read, inProfile, end)
    ensures !Present(read)
  {
    forall i, j | OccursAt(read, PROFILE_MARKER, i) && OccursAt(read, GUID_MARKER, j) ensures j < i + |PROFILE_MARKER| {
      OccursInSuffix(read, end, GUID_MARKER, j);
    }
  }

  /** Reading one more byte before the profile marker has been found. */
  lemma ProfileStep(read: seq<byte>, b: byte, n: nat)
    requires Known(read, false, 0) && n == Min(WINDOW, |read| + 1)
    ensures var found := Contains(Last(read + [b], n), PROFILE_MARKER);
            Known(read + [b], found, if found then |read| + 1 else 0)
  {
    WindowDecides(read, b, PROFILE_MARKER, n);
    var s := read + [b];
    if Contains(s, PROFILE_MARKER) {
      var k :| 0 <= k <= |s| && OccursAt(s, PROFILE_MARKER, k);
      assert s[|s|..] == [];
    }
  }

  /** Reading one more byte behind the profile marker. */
  lemma GuidStep(read: seq<byte>, end: nat, b: byte, n: nat)
    requires Known(read, true, end) && n == Min(WINDOW, |read| - end + 1)
    ensures Contains(Last((read + [b])[end..], n), GUID_MARKER) ==> Present(read + [b])
    ensures !Contains(Last((read + [b])[end..], n), GUID_MARKER) ==> Known(read + [b], true, end)
  {
    var s := read + [b];
    assert s[end..] == read[end..] + [b];
    WindowDecides(read[end..], b, GUID_MARKER, n);
    OccursInPrefix(read, [b], PROFILE_MARKER, end - |PROFILE_MARKER|);
    if Contains(s[end..], GUID_MARKER) {
      var k :| 0 <= k <= |s[end..]| && OccursAt(s[end..], GUID_MARKER, k);
      OccursInSuffix(s, end, GUID_MARKER, end + k);
    } else {
      forall i | OccursAt(s, PROFILE_MARKER, i) ensures end <= i + |PROFILE_MARKER| {
        OccursWithout(read, b, PROFILE_MARKER, i);
      }
    }
  }

  /** Present does not depend on what follows. */
  lemma PresentInPrefix(s: seq<byte>, t: seq<byte>)
    requires Present(s)
    ensures Present(s + t)
  {
    var i, j :| OccursAt(s, PROFILE_MARKER, i) && OccursAt(s, GUID_MARKER, j) && i + |PROFILE_MARKER| <= j;
    OccursInPrefix(s, t, PROFILE_MARKER, i);
    OccursInPrefix(s, t, GUID_MARKER, j);
  }

  lemma LastPush(from: seq<byte>, b: byte, n: nat)
    requires n <= |from|
    ensures Last(from + [b], n + 1) == Last(from, n) + [b]
  {
  }

  lemma LastDrop(from: seq<byte>, n: nat)
    requires 0 < n <= |from|
    ensures |Last(from, n)| == n && Last(from, n)[1..] == Last(from, n - 1)
  {
  }

  /** Append a byte to the window, dropping the oldest one when it is full. */
  method Slide(window: array<byte>, length: nat, b: byte, ghost from: seq<byte>) returns (length': nat)
    requires window.Length == WINDOW && length == Min(WINDOW, |from|) && window[..length] == Last(from, length)
    modifies window
    ensures length' == Min(WINDOW, |from| + 1)
    ensures window[..length'] == Last(from + [b], length')
  {
    hide Last;
    length' := length;
    if length' == window.Length {
      LastPush(from, b, length' - 1);
      LastDrop(from, length');
      ShiftDown(window);
      length' := length' - 1;
    } else {
      LastPush(from, b, length');
    }
    assert window[..length'] == Last(from, length');
    Put(window, length', b);
    length' := length' + 1;
  }

  method ShiftDown(window: array<byte>)
    requires window.Length == WINDOW
    modifies window
    ensures window[..WINDOW - 1] == old(window[..])[1..]
  {
    forall i | 0 <= i < WINDOW - 1 {
      window[i] := window[i + 1];
    }
  }

  method Put(window: array<byte>, at: nat, b: byte)
    requires at < window.Length
    modifies window
    ensures window[..at + 1] == old(window[..at]) + [b]
  {
    window[at] := b;
  }

  /** The window holds the last bytes read since the marker found last. */
  ghost predicate Scanning(window: seq<byte>, length: nat, read: seq<byte>, inProfile: bool, end: nat) {
    && Known(read, inProfile, end)
    && |window| == WINDOW && length == Min(WINDOW, |read| - end) && window[..length] == Last(read[end..], length)
  }

  method FeedByte(window: array<byte>, length: nat, inProfile: bool, b: byte, ghost read: seq<byte>, ghost end: nat)
    returns (length': nat, inProfile': bool, found: bool, ghost end': nat)
    requires Scanning(window[..], length, read, inProfile, end)
    modifies window
    ensures found ==> Present(read + [b])
    ensures !found ==> Scanning(window[..], length', read + [b], inProfile', end')
  {
    hide Contains, OccursAt, Present;
    inProfile', found, end' := inProfile, false, end;
    length' := Slide(window, length, b, read[end..]);
    assert (read + [b])[end..] == read[end..] + [b];
    if !inProfile' {
      assert read[end..] + [b] == read + [b];
      ProfileStep(read, b, length');
      if Contains(window[..length'], PROFILE_MARKER) {
        inProfile' := true;
        length' := 0;
        end' := |read| + 1;
      }
      return;
    }
    GuidStep(read, end, b, length');
    found := Contains(window[..length'], GUID_MARKER);
  }

  /** The inner loop: feed one buffer, stopping early when the GUID marker completes. */
  method FeedBuffer(window: array<byte>, length: nat, inProfile: bool, buffer: seq<byte>, ghost read: seq<byte>,
                    ghost end: nat)
    returns (length': nat, inProfile': bool, found: bool, ghost end': nat)
    requires Scanning(window[..], length, read, inProfile, end)
    modifies window
    ensures found ==> Present(read + buffer)
    ensures !found ==> Scanning(window[..], length', read + buffer, inProfile', end')
  {
    hide Present, Known;
    length', inProfile', found, end' := length, inProfile, false, end;
    assert read + buffer[..0] == read;
    for k := 0 to |buffer|
      invariant !found && Scanning(window[..], length', read + buffer[..k], inProfile', end')
    {
      length', inProfile', found, end' := FeedByte(window, length', inProfile', buffer[k], read + buffer[..k], end');
      assert (read + buffer[..k]) + [buffer[k]] == read + buffer[..k + 1];
      if found {
        PresentInPrefix(read + buffer[..k + 1], buffer[k + 1..]);
        assert read + buffer[..k + 1] + buffer[k + 1..] == read + buffer;
        return;
      }
    }
    assert buffer[..|buffer|] == buffer;
  }

  /** `chunks` are the successive non-empty results of the 4096-byte reads, up to end of file. */
  method AlreadyPresent(chunks: seq<seq<byte>>) returns (present: bool)
    requires forall c :: c in chunks ==> 0 < |c| <= 4096
    ensures present <==> Present(Content(chunks))
  {
    var window := new byte[WINDOW](_ => 0);
    var length: nat, inProfile := 0, false;
    ghost var read: seq<byte>, end: nat := [], 0;
    var rest := chunks;
    assert Scanning(window[..], length, read, inProfile, end);
    hide Scanning, Present, Content;
    while rest != []
      invariant read + Content(rest) == Content(chunks)
      invariant Scanning(window[..], length, read, inProfile, end)
      decreases |rest|
    {
      var found;
      ContentStep(read, rest);
      length, inProfile, found, end := FeedBuffer(window, length, inProfile, rest[0], read, end);
      read := read + rest[0];
      rest := rest[1..];
      if found {
        PresentInPrefix(read, Content(rest));
        return true;
      }
    }
    ScanEndsAbsent(window[..], length, read, inProfile, end);
    present := false;
  }

  lemma ContentStep(read: seq<byte>, rest: seq<seq<byte>>)
    requires rest != []
    ensures (read + rest[0]) + Content(rest[1..]) == read + Content(rest)
  {
  }

  lemma ScanEndsAbsent(window: seq<byte>, length: nat, read: seq<byte>, inProfile: bool, end: nat)
    requires Scanning(window, length, read, inProfile, end)
    ensures !Present(read) && read + Content([]) == read
  {
    NotFoundMeansAbsent(read, inProfile, end);
  }
}
