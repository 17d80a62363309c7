/**
  base/pickle.cc's Pickle: a buffer that grows, with the payload size in its first four bytes. Writers
  change it in place; readers move an iterator over it. The blocks written so far are a ghost field.
 */
module PickleClass {
  import opened Basics
  import opened Pickles
  import opened PickleRoundTrip

  /** The void* that a reader moves. */
  class Iterator {
    var place: Place

    constructor ()
      ensures place == Null
    {
      place := Null;
    }
  }

  // ----------------------------------------------------------------------------------------------
  // Buffers as sequences
  // ----------------------------------------------------------------------------------------------

  /** A buffer with room for its payload, in which the payload holds the blocks. */
  ghost predicate Holding(headerSize: nat, bytes: seq<byte>, chunks: seq<seq<byte>>) {
    && UNIT <= headerSize <= |bytes| && IsReadable(View(headerSize, bytes))
    && Holds(Payload(View(headerSize, bytes)), chunks)
  }

  lemma FourBytes(n: nat)
    requires n < UINT32_LIMIT
    ensures Encode(n, 4) == [n % 256, n / 256 % 256, n / 65536 % 256, n / 16777216 % 256]
    ensures Decode(Encode(n, 4)) == n
  {
    LimitsOf4();
    DecodeEncode(n, 4);
    assert n / 256 / 256 == n / 65536 && n / 65536 / 256 == n / 16777216;
    assert Encode(n / 16777216, 1) == [n / 16777216 % 256];
    assert Encode(n / 65536, 2) == [n / 65536 % 256] + Encode(n / 16777216, 1);
    assert Encode(n / 256, 3) == [n / 256 % 256] + Encode(n / 65536, 2);
  }

  ghost function Stored(bytes: seq<byte>, at: nat, n: nat): seq<byte>
    requires at + UNIT <= |bytes|
  {
    bytes[..at] + Encode(n, 4) + bytes[at + UNIT..]
  }

  method StoreUInt32(a: array<byte>, at: nat, n: nat)
    requires at + UNIT <= a.Length && n < UINT32_LIMIT
    modifies a
    ensures a[..] == Stored(old(a[..]), at, n) && a[at..at + UNIT] == Encode(n, 4)
    ensures forall i :: 0 <= i < a.Length && !(at <= i < at + UNIT) ==> a[i] == old(a[i])
  {
    FourBytes(n);
    a[at], a[at + 1], a[at + 2], a[at + 3] :=
      n % 256, n / 256 % 256, n / 65536 % 256, n / 16777216 % 256;
  }

  /** The buffer after BeginWrite, the copy and EndWrite. */
  ghost predicate Wrote(headerSize: nat, before: seq<byte>, after: seq<byte>, used: nat, data: seq<byte>) {
    var dest := headerSize + Align(used);
    && UNIT <= headerSize && headerSize + used <= |before| <= |after| && dest + |data| <= |after|
    && after[..UNIT] == Encode(Align(used) + |data|, 4)
    && (forall i :: UNIT <= i < headerSize + used ==> after[i] == before[i])
    && after[dest..dest + |data|] == data
  }

  /** The buffer after BeginWrite: the new payload size, and otherwise what was there. */
  ghost predicate Grown(before: seq<byte>, after: seq<byte>, size: nat) {
    UNIT <= |before| <= |after| && after[..UNIT] == Encode(size, 4) && after[UNIT..|before|] == before[UNIT..]
  }

  lemma GrownWhenStored(before: seq<byte>, grown: seq<byte>, size: nat)
    requires UNIT <= |before| && before <= grown
    ensures Grown(before, Stored(grown, 0, size), size)
  {
    var after := Stored(grown, 0, size);
    StoredFacts(grown, 0, size);
    FromZero(after, UNIT);
    forall i | UNIT <= i < |before| ensures after[i] == before[i] {
      assert after[i] == grown[i];
    }
  }

  lemma FromZero<T>(s: seq<T>, n: nat)
    requires n <= |s|
    ensures s[..n] == s[0..n]
  {
  }

  lemma SamePart<T>(a: seq<T>, b: seq<T>, size: nat, from: nat, to: nat)
    requires from <= to <= size <= |a| && size <= |b| && a[..size] == b[..size]
    ensures a[from..to] == b[from..to]
  {
    forall i | from <= i < to ensures a[i] == b[i] {
      assert a[..size][i] == b[..size][i];
    }
  }

  ghost predicate SameUpTo(before: seq<byte>, after: seq<byte>, n: nat) {
    n <= |before| == |after| && forall i :: 0 <= i < n ==> after[i] == before[i]
  }

  lemma WroteWhenCopied(headerSize: nat, before: seq<byte>, grown: seq<byte>, after: seq<byte>, used: nat,
          data: seq<byte>)
    requires UNIT <= headerSize && headerSize + used <= |before|
    requires Grown(before, grown, Align(used) + |data|)
    requires SameUpTo(grown, after, headerSize + Align(used))
    requires headerSize + Align(used) + |data| <= |after|
    requires after[headerSize + Align(used)..headerSize + Align(used) + |data|] == data
    ensures Wrote(headerSize, before, after, used, data)
  {
    assert after[..UNIT] == grown[..UNIT];
    forall i | UNIT <= i < headerSize + used ensures after[i] == before[i] {
      assert after[i] == grown[i];
      assert grown[UNIT..|before|][i - UNIT] == before[UNIT..][i - UNIT];
    }
  }

  lemma WrittenHolds(headerSize: nat, before: seq<byte>, after: seq<byte>, chunks: seq<seq<byte>>, data: seq<byte>,
          used: nat)
    requires Holding(headerSize, before, chunks) && used == PayloadSize(View(headerSize, before))
    requires Wrote(headerSize, before, after, used, data) && Align(used) + |data| < UINT32_LIMIT
    ensures Holding(headerSize, after, chunks + [data])
    ensures PayloadSize(View(headerSize, after)) == EndOf(used, [data])
  {
    FourBytes(Align(used) + |data|);
    EndOfOne(used, data);
    var v, w := View(headerSize, before), View(headerSize, after);
    PayloadSlice(w, 0, used);
    PayloadSlice(w, Align(used), |Payload(w)|);
    PayloadKept(headerSize, before, after, used);
    assert Payload(w)[Align(used)..] == data;
    LaidAndAppended(Payload(v), Payload(w), 0, chunks, data);
  }

  lemma PayloadKept(headerSize: nat, before: seq<byte>, after: seq<byte>, used: nat)
    requires UNIT <= headerSize && headerSize + used <= |before| <= |after|
    requires forall i :: UNIT <= i < headerSize + used ==> after[i] == before[i]
    ensures after[headerSize..headerSize + used] == before[headerSize..headerSize + used]
    ensures after[UNIT..headerSize] == before[UNIT..headerSize]
  {
  }

  /** The length at variable_buffer_offset_, and that many bytes after it, are part of the payload. */
  ghost predicate VariableFits(headerSize: nat, bytes: seq<byte>, offset: nat) {
    && UNIT <= headerSize <= offset && offset + UNIT <= |bytes|
    && (var length := Decode(bytes[offset..offset + UNIT]);
        length <= INT_MAX && offset + UNIT + length <= EndOfPayload(View(headerSize, bytes)))
  }

  lemma VariableKept(headerSize: nat, before: seq<byte>, after: seq<byte>, used: nat, data: seq<byte>, offset: nat)
    requires VariableFits(headerSize, before, offset) && used == PayloadSize(View(headerSize, before))
    requires Wrote(headerSize, before, after, used, data) && Align(used) + |data| < UINT32_LIMIT
    ensures VariableFits(headerSize, after, offset)
  {
    FourBytes(Align(used) + |data|);
    PayloadKept(headerSize, before, after, used);
    assert after[offset..offset + UNIT] == before[offset..offset + UNIT];
  }

  lemma EndOfOne(at: nat, chunk: seq<byte>)
    ensures EndOf(at, [chunk]) == Align(at) + |chunk|
  {
    assert [chunk][1..] == [];
  }

  /** Where the length of the last data block stands, when there are `base` blocks before it. */
  ghost function LengthOffset(headerSize: nat, base: seq<seq<byte>>): nat {
    headerSize + Align(EndOf(0, base))
  }

  lemma DataStands(headerSize: nat, bytes: seq<byte>, base: seq<seq<byte>>, length: seq<byte>, data: seq<byte>)
    requires Holding(headerSize, bytes, base + [length, data]) && |length| == UNIT
    ensures var at := LengthOffset(headerSize, base);
            && at + UNIT + |data| == EndOfPayload(View(headerSize, bytes)) <= |bytes|
            && bytes[at..at + UNIT] == length && bytes[at + UNIT..at + UNIT + |data|] == data
  {
    var v := View(headerSize, bytes);
    var k := EndOf(0, base);
    LaidAfter(Payload(v), 0, base, [length, data]);
    LaidTwo(Payload(v), k, length, data);
    PayloadSlice(v, Align(k), Align(k) + UNIT);
    PayloadSlice(v, Align(k) + UNIT, |Payload(v)|);
    assert Payload(v)[Align(k) + UNIT..] == Payload(v)[Align(k) + UNIT..|Payload(v)|];
  }

  lemma CopyHolds(headerSize: nat, before: seq<byte>, after: seq<byte>, chunks: seq<seq<byte>>, size: nat,
          offset: nat)
    requires Holding(headerSize, before, chunks) && size == EndOfPayload(View(headerSize, before)) <= |after|
    requires after[..size] == before[..size]
    ensures Holding(headerSize, after, chunks)
    ensures PayloadSize(View(headerSize, after)) == PayloadSize(View(headerSize, before))
    ensures VariableFits(headerSize, before, offset) ==> VariableFits(headerSize, after, offset)
  {
    SamePart(before, after, size, 0, UNIT);
    SamePart(before, after, size, headerSize, size);
    if VariableFits(headerSize, before, offset) {
      SamePart(before, after, size, offset, offset + UNIT);
      assert after[offset..offset + UNIT] == before[offset..offset + UNIT];
    }
  }

  /** From `at` on there are a length and data, before it nothing but the payload size has changed. */
  ghost predicate Replaced(before: seq<byte>, after: seq<byte>, at: nat, length: seq<byte>, data: seq<byte>) {
    && |after| == |before| && UNIT <= at && at + UNIT + |data| <= |after|
    && (forall i :: UNIT <= i < at ==> after[i] == before[i])
    && after[at..at + UNIT] == length && after[at + UNIT..at + UNIT + |data|] == data
  }

  /** The last data block may be overwritten, and may be cut short. */
  lemma DataReplaced(headerSize: nat, before: seq<byte>, after: seq<byte>, base: seq<seq<byte>>, length: seq<byte>,
          data: seq<byte>, newLength: seq<byte>, newData: seq<byte>)
    requires Holding(headerSize, before, base + [length, data]) && |length| == |newLength| == UNIT
    requires |newData| <= |data|
    requires PayloadSize(View(headerSize, after)) == PayloadSize(View(headerSize, before)) - (|data| - |newData|)
    requires Replaced(before, after, LengthOffset(headerSize, base), newLength, newData)
    ensures Holding(headerSize, after, base + [newLength, newData])
    ensures after[UNIT..headerSize] == before[UNIT..headerSize]
  {
    var k := EndOf(0, base);
    DataStands(headerSize, before, base, length, data);
    FrontLaid(headerSize, before, after, base, [length, data]);
    NewDataLaid(headerSize, after, k, newLength, newData);
    LaidTogether(Payload(View(headerSize, after)), 0, base, [newLength, newData]);
  }

  lemma FrontLaid(headerSize: nat, before: seq<byte>, after: seq<byte>, base: seq<seq<byte>>, more: seq<seq<byte>>)
    requires Holding(headerSize, before, base + more)
    requires UNIT <= headerSize && IsReadable(View(headerSize, after))
    requires EndOf(0, base) <= |Payload(View(headerSize, after))|
    requires |after| == |before|
    requires forall i :: headerSize <= i < headerSize + Align(EndOf(0, base)) && i < |after| ==> after[i] == before[i]
    ensures Laid(Payload(View(headerSize, after))[..EndOf(0, base)], 0, base)
  {
    var v, w, k := View(headerSize, before), View(headerSize, after), EndOf(0, base);
    LaidBefore(Payload(v), 0, base, more);
    assert Payload(v)[..k] == before[headerSize..headerSize + k];
    assert Payload(w)[..k] == after[headerSize..headerSize + k];
    assert after[headerSize..headerSize + k] == before[headerSize..headerSize + k];
  }

  lemma NewDataLaid(headerSize: nat, after: seq<byte>, k: nat, newLength: seq<byte>, newData: seq<byte>)
    requires UNIT <= headerSize && IsReadable(View(headerSize, after)) && |newLength| == UNIT
    requires var at := headerSize + Align(k);
             && at + UNIT + |newData| == EndOfPayload(View(headerSize, after))
             && after[at..at + UNIT] == newLength && after[at + UNIT..at + UNIT + |newData|] == newData
    ensures Laid(Payload(View(headerSize, after)), k, [newLength, newData])
  {
    var w := View(headerSize, after);
    PayloadSlice(w, Align(k), Align(k) + UNIT);
    PayloadSlice(w, Align(k) + UNIT, |Payload(w)|);
    assert Payload(w)[Align(k) + UNIT..] == Payload(w)[Align(k) + UNIT..|Payload(w)|];
    LaidTwo(Payload(w), k, newLength, newData);
  }

  lemma {:induction false} NewData(headerSize: nat, before: seq<byte>, after: seq<byte>, base: seq<seq<byte>>,
          was: seq<byte>, data: seq<byte>)
    requires Holding(headerSize, before, base + [Encode(|was|, 4), was]) && |data| <= |was| <= INT_MAX
    requires Replaced(before, after, LengthOffset(headerSize, base), Encode(|data|, 4), data)
    requires PayloadSize(View(headerSize, after)) == PayloadSize(View(headerSize, before)) - (|was| - |data|)
    ensures Holding(headerSize, after, base + [Encode(|data|, 4), data])
    ensures VariableFits(headerSize, after, LengthOffset(headerSize, base))
    ensures after[UNIT..headerSize] == before[UNIT..headerSize]
  {
    DataReplaced(headerSize, before, after, base, Encode(|was|, 4), was, Encode(|data|, 4), data);
    VariableStands(headerSize, after, base, data);
  }

  /** The buffer with the data copied in. */
  ghost function Pasted(bytes: seq<byte>, from: nat, data: seq<byte>): seq<byte>
    requires from + |data| <= |bytes|
  {
    bytes[..from] + data + bytes[from + |data|..]
  }

  lemma PastedFacts(bytes: seq<byte>, from: nat, data: seq<byte>)
    requires from + |data| <= |bytes|
    ensures var after := Pasted(bytes, from, data);
            && |after| == |bytes| && after[..from] == bytes[..from] && after[from..from + |data|] == data
            && after[from + |data|..] == bytes[from + |data|..]
  {
  }

  ghost function Overwritten(chunks: seq<seq<byte>>, data: seq<byte>): seq<seq<byte>>
    requires |chunks| >= 2 && |data| <= |chunks[|chunks| - 1]|
  {
    chunks[..|chunks| - 2] + [chunks[|chunks| - 2], data + chunks[|chunks| - 1][|data|..]]
  }

  lemma FillHolds(headerSize: nat, before: seq<byte>, chunks: seq<seq<byte>>, offset: nat, data: seq<byte>)
    returns (after: seq<byte>)
    requires Holding(headerSize, before, chunks) && EndsWithData(headerSize, chunks, offset)
    requires |data| <= |chunks[|chunks| - 1]|
    ensures offset + UNIT + |data| <= |before| && after == Pasted(before, offset + UNIT, data)
    ensures var blocks := Overwritten(chunks, data);
            Holding(headerSize, after, blocks) && EndsWithData(headerSize, blocks, offset)
    ensures VariableFits(headerSize, after, offset) && after[UNIT..headerSize] == before[UNIT..headerSize]
    ensures PayloadSize(View(headerSize, after)) == PayloadSize(View(headerSize, before))
  {
    DataFits(headerSize, before, chunks, offset);
    after := Pasted(before, offset + UNIT, data);
    PastedKeeps(before, headerSize, offset + UNIT, data);
    var base, was := chunks[..|chunks| - 2], chunks[|chunks| - 1];
    var now := data + was[|data|..];
    AllButLast(chunks, Encode(|was|, 4), was);
    DataStands(headerSize, before, base, Encode(|was|, 4), was);
    Filled(before, after, offset, Encode(|was|, 4), data, was);
    NewData(headerSize, before, after, base, was, now);
    NowLast(base, Encode(|was|, 4), now, Overwritten(chunks, data));
  }

  /** Where the next block is going to stand, and the one after it if that is a number of four bytes. */
  lemma OffsetOfNext(headerSize: nat, bytes: seq<byte>, chunks: seq<seq<byte>>)
    requires Holding(headerSize, bytes, chunks)
    ensures var used := PayloadSize(View(headerSize, bytes));
            && LengthOffset(headerSize, chunks) == headerSize + Align(used)
            && Align(Align(used) + UNIT) == Align(used) + UNIT
  {
    LaidEnd(Payload(View(headerSize, bytes)), 0, chunks);
  }

  lemma NowLast<T>(base: seq<T>, a: T, b: T, all: seq<T>)
    requires all == base + [a, b]
    ensures |all| == |base| + 2 && all[..|base|] == base && all[|base|] == a && all[|base| + 1] == b
  {
  }

  lemma AllButLast<T>(all: seq<T>, a: T, b: T)
    requires |all| >= 2 && all[|all| - 2] == a && all[|all| - 1] == b
    ensures all == all[..|all| - 2] + [a, b]
  {
  }

  /** The variable buffer after its start has been overwritten. */
  lemma Filled(before: seq<byte>, after: seq<byte>, at: nat, length: seq<byte>, data: seq<byte>, was: seq<byte>)
    requires Replaced(before, before, at, length, was) && |data| <= |was|
    requires after == Pasted(before, at + UNIT, data)
    ensures Replaced(before, after, at, length, data + was[|data|..])
    ensures after[..UNIT] == before[..UNIT]
  {
    var from := at + UNIT;
    PastedFacts(before, from, data);
    SamePart(after, before, from, 0, UNIT);
    SamePart(after, before, from, at, from);
    assert forall i :: UNIT <= i < at ==> after[..from][i] == before[..from][i];
    assert forall i :: |data| <= i < |was| ==> after[from + i] == before[from + i] == was[i];
    assert after[from..from + |was|] == data + was[|data|..];
  }

  /** The payload size and the length at `at` have been stored, and nothing else has changed. */
  ghost predicate TrimmedTo(before: seq<byte>, after: seq<byte>, at: nat, size: nat, n: nat) {
    && |after| == |before| && UNIT <= at && at + UNIT <= |after|
    && after[..UNIT] == Encode(size, 4) && after[at..at + UNIT] == Encode(n, 4)
    && forall i :: UNIT <= i < |after| && !(at <= i < at + UNIT) ==> after[i] == before[i]
  }

  ghost function Trimmed(bytes: seq<byte>, at: nat, size: nat, n: nat): seq<byte>
    requires UNIT <= at && at + UNIT <= |bytes|
  {
    Stored(Stored(bytes, 0, size), at, n)
  }

  lemma StoredFacts(bytes: seq<byte>, at: nat, n: nat)
    requires at + UNIT <= |bytes|
    ensures |Stored(bytes, at, n)| == |bytes| && Stored(bytes, at, n)[at..at + UNIT] == Encode(n, 4)
    ensures forall i :: 0 <= i < |bytes| && !(at <= i < at + UNIT) ==> Stored(bytes, at, n)[i] == bytes[i]
  {
  }

  lemma TrimmedFacts(bytes: seq<byte>, at: nat, size: nat, n: nat)
    requires UNIT <= at && at + UNIT <= |bytes|
    ensures TrimmedTo(bytes, Trimmed(bytes, at, size, n), at, size, n)
  {
    var middle := Stored(bytes, 0, size);
    StoredFacts(bytes, 0, size);
    StoredFacts(middle, at, n);
    assert Stored(middle, at, n)[..UNIT] == middle[0..UNIT];
  }

  /** If the last block is the data of that length, it keeps its first bytes. */
  lemma TrimmedData(headerSize: nat, before: seq<byte>, after: seq<byte>, base: seq<seq<byte>>, was: seq<byte>,
          at: nat, size: nat, n: nat)
    requires Holding(headerSize, before, base + [Encode(|was|, 4), was]) && n <= |was| <= INT_MAX
    requires at == LengthOffset(headerSize, base) && PayloadSize(View(headerSize, before)) == size + (|was| - n)
    requires size < UINT32_LIMIT && TrimmedTo(before, after, at, size, n)
    ensures Holding(headerSize, after, base + [Encode(n, 4), was[..n]])
  {
    DataStands(headerSize, before, base, Encode(|was|, 4), was);
    FirstBytes(before, after, at + UNIT, was, n);
    TrimmedSizes(headerSize, before, after, at, size, n);
    NewData(headerSize, before, after, base, was, was[..n]);
  }

  lemma FirstBytes(before: seq<byte>, after: seq<byte>, from: nat, was: seq<byte>, n: nat)
    requires from + |was| <= |before| == |after| && before[from..from + |was|] == was && n <= |was|
    requires forall i :: from <= i < |after| ==> after[i] == before[i]
    ensures after[from..from + n] == was[..n]
  {
    assert after[from..from + |was|] == before[from..from + |was|];
    assert after[from..from + n] == after[from..from + |was|][..n];
  }

  /** The last two blocks are a length, at the offset, and that much data. */
  ghost predicate EndsWithData(headerSize: nat, chunks: seq<seq<byte>>, offset: nat) {
    && |chunks| >= 2
    && (var data := chunks[|chunks| - 1]; |data| <= INT_MAX && chunks[|chunks| - 2] == Encode(|data|, 4))
    && offset == LengthOffset(headerSize, chunks[..|chunks| - 2])
  }

  /** The same blocks, with no more than the first `n` bytes of the last one. */
  ghost function CutLast(chunks: seq<seq<byte>>, n: nat): seq<seq<byte>>
    requires |chunks| >= 2
  {
    var data := chunks[|chunks| - 1];
    var kept := if n < |data| then data[..n] else data;
    chunks[..|chunks| - 2] + [Encode(|kept|, 4), kept]
  }

  lemma DataHasLength(headerSize: nat, bytes: seq<byte>, chunks: seq<seq<byte>>, offset: nat)
    requires Holding(headerSize, bytes, chunks) && EndsWithData(headerSize, chunks, offset)
    ensures offset + UNIT <= |bytes| && Decode(bytes[offset..offset + UNIT]) == |chunks[|chunks| - 1]|
    ensures CutLast(chunks, |chunks[|chunks| - 1]|) == chunks
  {
    var data := chunks[|chunks| - 1];
    AllButLast(chunks, Encode(|data|, 4), data);
    DataStands(headerSize, bytes, chunks[..|chunks| - 2], Encode(|data|, 4), data);
    FourBytes(|data|);
  }

  lemma FilledAndCut(chunks: seq<seq<byte>>, data: seq<byte>)
    requires |chunks| >= 2 && |data| <= |chunks[|chunks| - 1]|
    ensures |chunks[|chunks| - 1]| == |Overwritten(chunks, data)[|chunks| - 1]|
    ensures CutLast(Overwritten(chunks, data), |data|) == chunks[..|chunks| - 2] + [Encode(|data|, 4), data]
  {
    var now := data + chunks[|chunks| - 1][|data|..];
    assert now[..|data|] == data;
    assert |now| == |data| ==> now == now[..|data|];
    assert Overwritten(chunks, data)[..|chunks| - 2] == chunks[..|chunks| - 2];
  }

  lemma PastedKeeps(bytes: seq<byte>, headerSize: nat, from: nat, data: seq<byte>)
    requires UNIT <= headerSize <= from && from + |data| <= |bytes|
    ensures Pasted(bytes, from, data)[UNIT..headerSize] == bytes[UNIT..headerSize]
  {
    PastedFacts(bytes, from, data);
    SamePart(Pasted(bytes, from, data), bytes, from, UNIT, headerSize);
  }

  /** The end of the payload, when the second of two blocks is cut short. */
  lemma {:induction false} EndOfCut(used: nat, room: nat, gap: seq<byte>, data: seq<byte>)
    requires |gap| == room >= |data|
    ensures EndOf(used, [Encode(|data|, 4), data]) == EndOf(used, [Encode(room, 4), gap]) - (room - |data|)
  {
    EndOfPair(used, Encode(|data|, 4), data);
    EndOfPair(used, Encode(room, 4), gap);
  }

  lemma EndOfPair(used: nat, first: seq<byte>, second: seq<byte>)
    ensures EndOf(used, [first, second]) == Align(Align(used) + |first|) + |second|
  {
    EndOfTwo(used, first, second);
    EndOfOne(used, first);
    EndOfOne(EndOf(used, [first]), second);
  }

  lemma DataFits(headerSize: nat, bytes: seq<byte>, chunks: seq<seq<byte>>, offset: nat)
    requires Holding(headerSize, bytes, chunks) && EndsWithData(headerSize, chunks, offset)
    ensures offset + UNIT + |chunks[|chunks| - 1]| <= |bytes|
  {
    var data := chunks[|chunks| - 1];
    AllButLast(chunks, Encode(|data|, 4), data);
    DataStands(headerSize, bytes, chunks[..|chunks| - 2], Encode(|data|, 4), data);
  }

  lemma CutLastEnds(headerSize: nat, chunks: seq<seq<byte>>, offset: nat, n: nat)
    requires EndsWithData(headerSize, chunks, offset)
    ensures EndsWithData(headerSize, CutLast(chunks, n), offset)
  {
    var cut := CutLast(chunks, n);
    NowLast(chunks[..|chunks| - 2], cut[|cut| - 2], cut[|cut| - 1], cut);
  }

  lemma CutLastHolds(headerSize: nat, before: seq<byte>, after: seq<byte>, chunks: seq<seq<byte>>, offset: nat,
          size: nat, n: nat)
    requires Holding(headerSize, before, chunks) && EndsWithData(headerSize, chunks, offset)
    requires VariableFits(headerSize, before, offset) && PayloadSize(View(headerSize, before)) < UINT32_LIMIT
    requires var cut := Decode(before[offset..offset + UNIT]) - n;
             && 0 <= cut && PayloadSize(View(headerSize, before)) == size + cut
             && TrimmedTo(before, after, offset, size, n)
    ensures Holding(headerSize, after, CutLast(chunks, n))
  {
    var data := chunks[|chunks| - 1];
    DataHasLength(headerSize, before, chunks, offset);
    AllButLast(chunks, Encode(|data|, 4), data);
    TrimmedData(headerSize, before, after, chunks[..|chunks| - 2], data, offset, size, n);
    assert n == |data| ==> data[..n] == data;
  }

  lemma TrimmedSizes(headerSize: nat, before: seq<byte>, after: seq<byte>, offset: nat, size: nat, n: nat)
    requires TrimmedTo(before, after, offset, size, n) && UNIT <= headerSize <= offset
    requires n < UINT32_LIMIT && size < UINT32_LIMIT
    ensures PayloadSize(View(headerSize, after)) == size && Decode(after[offset..offset + UNIT]) == n
    ensures after[UNIT..headerSize] == before[UNIT..headerSize]
  {
    FourBytes(size);
    FourBytes(n);
  }

  /** The blocks that are known to be held after a trim; after later writes, only the payload as a whole. */
  ghost function NewBlocks(headerSize: nat, after: seq<byte>, chunks: seq<seq<byte>>, offset: nat,
          n: nat): seq<seq<byte>>
    requires IsReadable(View(headerSize, after))
  {
    if EndsWithData(headerSize, chunks, offset) then CutLast(chunks, n) else [Payload(View(headerSize, after))]
  }

  lemma TrimHolds(headerSize: nat, before: seq<byte>, after: seq<byte>, chunks: seq<seq<byte>>, offset: nat,
          size: nat, current: nat, n: nat)
    requires Holding(headerSize, before, chunks) && VariableFits(headerSize, before, offset)
    requires size == PayloadSize(View(headerSize, before)) < UINT32_LIMIT
    requires n <= current == Decode(before[offset..offset + UNIT])
    requires current - n <= size && after == Trimmed(before, offset, size - (current - n), n)
    ensures VariableFits(headerSize, after, offset) && IsReadable(View(headerSize, after))
    ensures PayloadSize(View(headerSize, after)) == size - (current - n)
    ensures Decode(after[offset..offset + UNIT]) == n && after[UNIT..headerSize] == before[UNIT..headerSize]
    ensures var blocks := NewBlocks(headerSize, after, chunks, offset, n);
            && Holding(headerSize, after, blocks)
            && (EndsWithData(headerSize, chunks, offset) ==> EndsWithData(headerSize, blocks, offset))
  {
    var left := size - (current - n);
    TrimmedFacts(before, offset, left, n);
    TrimmedSizes(headerSize, before, after, offset, left, n);
    var blocks := NewBlocks(headerSize, after, chunks, offset, n);
    if EndsWithData(headerSize, chunks, offset) {
      CutLastHolds(headerSize, before, after, chunks, offset, left, n);
      CutLastEnds(headerSize, chunks, offset, n);
      assert blocks == CutLast(chunks, n);
    } else {
      OneBlockHolds(headerSize, after);
      assert blocks == [Payload(View(headerSize, after))];
    }
  }

  lemma OneBlockHolds(headerSize: nat, bytes: seq<byte>)
    requires UNIT <= headerSize <= |bytes| && IsReadable(View(headerSize, bytes))
    ensures Holding(headerSize, bytes, [Payload(View(headerSize, bytes))])
  {
    LaidOne(Payload(View(headerSize, bytes)), 0, Payload(View(headerSize, bytes)));
  }

  lemma VariableStands(headerSize: nat, bytes: seq<byte>, base: seq<seq<byte>>, data: seq<byte>)
    requires Holding(headerSize, bytes, base + [Encode(|data|, 4), data]) && |data| <= INT_MAX
    ensures VariableFits(headerSize, bytes, LengthOffset(headerSize, base))
  {
    DataStands(headerSize, bytes, base, Encode(|data|, 4), data);
    FourBytes(|data|);
  }

  lemma EndOfTwo(at: nat, first: seq<byte>, second: seq<byte>)
    ensures EndOf(at, [first, second]) == EndOf(EndOf(at, [first]), [second]) >= EndOf(at, [first])
  {
    assert [first, second][1..] == [second];
  }

  lemma PairAppended<T>(s: seq<T>, a: T, b: T)
    ensures s + [a] + [b] == s + [a, b]
  {
  }

  lemma LengthIsNumber(length: nat)
    requires length <= INT_MAX
    ensures IsNumber(Int, length) && Unsigned(length, 4) == length
  {
    LimitsOf4();
  }

  /** All that a write of one block leaves behind. */
  lemma Finish(headerSize: nat, before: seq<byte>, after: seq<byte>, chunks: seq<seq<byte>>, used: nat,
          data: seq<byte>, offset: nat)
    requires Holding(headerSize, before, chunks) && used == PayloadSize(View(headerSize, before))
    requires Wrote(headerSize, before, after, used, data) && Align(used) + |data| < UINT32_LIMIT
    requires offset != 0 ==> VariableFits(headerSize, before, offset)
    ensures Holding(headerSize, after, chunks + [data])
    ensures PayloadSize(View(headerSize, after)) == EndOf(used, [data])
    ensures offset != 0 ==> VariableFits(headerSize, after, offset)
    ensures after[UNIT..headerSize] == before[UNIT..headerSize]
  {
    WrittenHolds(headerSize, before, after, chunks, data, used);
    PayloadKept(headerSize, before, after, used);
    if offset != 0 { VariableKept(headerSize, before, after, used, data, offset); }
  }

  lemma EndOfFirst(used: nat, items: seq<Item>)
    requires items != []
    ensures EndOf(used, AllChunks(items)) == EndOf(EndOf(used, Chunks(items[0])), AllChunks(items[1..]))
    ensures EndOf(used, Chunks(items[0])) <= EndOf(used, AllChunks(items))
  {
    EndOfSum(used, Chunks(items[0]), AllChunks(items[1..]));
    EndOfSum(EndOf(used, Chunks(items[0])), AllChunks(items[1..]), []);
  }

  lemma ChunksOfFirst(before: seq<seq<byte>>, items: seq<Item>)
    requires items != []
    ensures before + Chunks(items[0]) + AllChunks(items[1..]) == before + AllChunks(items)
  {
    Regroup(before, Chunks(items[0]), AllChunks(items[1..]));
  }

  // ----------------------------------------------------------------------------------------------
  // The object
  // ----------------------------------------------------------------------------------------------

  class Pickle {
    var header: array?<byte>
    var headerSize: nat
    var readOnly: bool              // capacity_ is kCapacityReadOnly
    var capacity: nat
    var variableBufferOffset: nat
    ghost var chunks: seq<seq<byte>>

    ghost function SeenAs(): View
      reads this, header
    {
      if header == null then REFUSED else View(headerSize, header[..])
    }

    ghost predicate Valid()
      reads this, header
    {
      && (header == null ==> headerSize == 0) && (header == null ==> readOnly)
      && (readOnly ==> variableBufferOffset == 0)
      && (header != null ==> UNIT <= headerSize <= header.Length)
      && IsReadable(SeenAs())
      && (!readOnly ==> Writable())
    }

    /** What the buffer arithmetic keeps, and that the payload holds all that was written. */
    ghost predicate Writable()
      reads this, header
    {
      && header != null && capacity == header.Length && capacity % PAYLOAD_UNIT == 0
      && Holding(headerSize, header[..], chunks)
      && (variableBufferOffset != 0 ==> VariableFits(headerSize, header[..], variableBufferOffset))
    }

    ghost function Used(): nat
      reads this, header
    {
      PayloadSize(SeenAs())
    }

    /** What a caller keeps in the header, behind the payload size. */
    ghost function UserHeader(): seq<byte>
      requires header != null && UNIT <= headerSize <= header.Length
      reads this, header
    {
      header[..][UNIT..headerSize]
    }

    constructor ()
      ensures Valid() && !readOnly && fresh(header) && headerSize == UNIT
      ensures chunks == [] && variableBufferOffset == 0 && Used() == 0
    {
      header := null;
      headerSize := UNIT;
      readOnly := false;
      capacity := 0;
      variableBufferOffset := 0;
      chunks := [];
      new;
      Resize(PAYLOAD_UNIT);
      StoreUInt32(header, 0, 0);
      Empty();
    }

    constructor WithHeader(size: nat)
      requires UNIT <= size <= PAYLOAD_UNIT
      ensures Valid() && !readOnly && fresh(header) && headerSize == Align(size)
      ensures chunks == [] && variableBufferOffset == 0 && Used() == 0
    {
      header := null;
      headerSize := Align(size);
      readOnly := false;
      capacity := 0;
      variableBufferOffset := 0;
      chunks := [];
      new;
      Resize(PAYLOAD_UNIT);
      StoreUInt32(header, 0, 0);
      Empty();
    }

    /** A block of bytes that is referenced, not copied; nothing is used of one that makes no sense. */
    constructor FromBuffer(data: array<byte>)
      requires data.Length <= INT_MAX
      ensures Valid() && readOnly && SeenAs() == FromData(data[..])
      ensures header == null || header == data
    {
      var size := 0;
      if data.Length >= UNIT {
        size := (data.Length - Decode(data[..UNIT])) % UINT32_LIMIT;
      }
      if size > data.Length {
        size := 0;
      }
      if size != AlignInt(size, UNIT) {
        size := 0;
      }
      header := if size == 0 then null else data;
      headerSize := size;
      readOnly := true;
      capacity := 0;
      variableBufferOffset := 0;
      chunks := [];
      new;
      assert data.Length < UNIT || data[..][..UNIT] == data[..UNIT];
      FromDataAccepts(data[..]);
    }

    /** A deep copy: writable, whatever the other was. */
    constructor Copy(other: Pickle)
      requires other.Valid() && other.header != null
      ensures Valid() && !readOnly && fresh(header) && headerSize == other.headerSize
      ensures Used() == other.Used() && header[..headerSize + Used()] == other.header[..headerSize + Used()]
      ensures chunks == if other.readOnly then [Payload(other.SeenAs())] else other.chunks
      ensures variableBufferOffset == other.variableBufferOffset
    {
      ghost var v := other.SeenAs();
      var size := other.headerSize + Decode(other.header[..UNIT]);
      assert v.bytes[..UNIT] == other.header[..UNIT];
      header := null;
      headerSize := other.headerSize;
      readOnly := false;
      capacity := 0;
      variableBufferOffset := other.variableBufferOffset;
      chunks := if other.readOnly then [Payload(other.SeenAs())] else other.chunks;
      new;
      assert other.header[..size] == v.bytes[..size];
      LaidOne(Payload(v), 0, Payload(v));
      TakeBytes(other.header[..size]);
      CopyHolds(headerSize, v.bytes, header[..], chunks, size, variableBufferOffset);
    }

    /** Resize, and the copy of a whole buffer. */
    method TakeBytes(data: seq<byte>)
      requires header == null
      modifies this
      ensures header != null && fresh(header) && header.Length == capacity == AlignInt(|data|, PAYLOAD_UNIT)
      ensures |data| <= header.Length && header[..|data|] == data
      ensures headerSize == old(headerSize) && readOnly == old(readOnly) && chunks == old(chunks)
      ensures variableBufferOffset == old(variableBufferOffset)
    {
      Resize(|data|);
      CopyIn(0, data);
    }

    lemma Empty()
      requires header != null && UNIT <= headerSize <= header.Length && headerSize % UNIT == 0
      requires header[0..UNIT] == Encode(0, 4) && chunks == []
      ensures Holding(headerSize, header[..], chunks) && Used() == 0
    {
      assert header[..][..UNIT] == header[0..UNIT];
      FourBytes(0);
    }

    /** Reallocates, keeping what fits; the capacity is a multiple of 64. */
    method Resize(newCapacity: nat)
      requires header != null ==> header.Length <= newCapacity
      modifies this
      ensures header != null && fresh(header) && header.Length == capacity == AlignInt(newCapacity, PAYLOAD_UNIT)
      ensures old(header) != null ==> forall i :: 0 <= i < old(header.Length) ==> header[i] == old(header[i])
      ensures headerSize == old(headerSize) && readOnly == old(readOnly) && chunks == old(chunks)
      ensures variableBufferOffset == old(variableBufferOffset)
    {
      var aligned := AlignInt(newCapacity, PAYLOAD_UNIT);
      var p := new byte[aligned];
      if header != null {
        forall i | 0 <= i < header.Length {
          p[i] := header[i];
        }
      }
      header := p;
      capacity := aligned;
    }

    /** Whether the payload size, a uint32, can still count the payload with the blocks appended. */
    ghost predicate CanCount(more: seq<seq<byte>>)
      reads this, header
    {
      EndOf(Used(), more) < UINT32_LIMIT
    }

    /** Makes room at the next aligned offset, and counts it to the payload. */
    method BeginWrite(length: nat) returns (dest: nat)
      requires Valid() && !readOnly && Align(Used()) + length < UINT32_LIMIT
      modifies this, header
      ensures header != null && (header == old(header) || fresh(header))
      ensures header.Length == capacity && capacity % PAYLOAD_UNIT == 0 && old(header.Length) <= header.Length
      ensures header != old(header) ==> capacity >= 2 * old(header.Length)
      ensures headerSize == old(headerSize) && readOnly == old(readOnly) && chunks == old(chunks)
      ensures variableBufferOffset == old(variableBufferOffset)
      ensures dest == headerSize + Align(old(Used())) && dest + Align(length) <= header.Length
      ensures Grown(old(header[..]), header[..], Align(old(Used())) + length)
    {
      assert header[..][..UNIT] == header[..UNIT];
      var used := Decode(header[..UNIT]);
      assert used == Used();
      var offset := Align(used);
      CountUpTo(offset + length);
      RoomForPadding(headerSize, offset, length, header.Length);
      dest := headerSize + offset;
    }

    /** Makes room for a payload of that size, and stores the size. */
    method CountUpTo(size: nat)
      requires header != null && UNIT <= header.Length && size < UINT32_LIMIT
      requires capacity == header.Length && capacity % PAYLOAD_UNIT == 0
      modifies this, header
      ensures header != null && (header == old(header) || fresh(header))
      ensures header.Length == capacity && capacity % PAYLOAD_UNIT == 0 && old(header.Length) <= header.Length
      ensures header != old(header) ==> capacity >= 2 * old(header.Length)
      ensures headerSize == old(headerSize) && readOnly == old(readOnly) && chunks == old(chunks)
      ensures variableBufferOffset == old(variableBufferOffset)
      ensures headerSize + size <= header.Length && Grown(old(header[..]), header[..], size)
    {
      ghost var before := header[..];
      GrowTo(headerSize + size);
      ghost var grown := header[..];
      StoreUInt32(header, 0, size);
      GrownWhenStored(before, grown, size);
      assert header[..] == Stored(grown, 0, size);
    }

    method GrowTo(neededSize: nat)
      requires header != null && capacity == header.Length && capacity % PAYLOAD_UNIT == 0
      modifies this
      ensures header != null && (header == old(header) || fresh(header))
      ensures header.Length == capacity && capacity % PAYLOAD_UNIT == 0 && neededSize <= capacity
      ensures old(header[..]) <= header[..]
      ensures header != old(header) ==> capacity >= 2 * old(header.Length)
      ensures headerSize == old(headerSize) && readOnly == old(readOnly) && chunks == old(chunks)
      ensures variableBufferOffset == old(variableBufferOffset)
    {
      if neededSize > capacity {
        Resize(if capacity * 2 > neededSize then capacity * 2 else neededSize);
      }
    }

    /** A capacity in units of 64 has room for the padding of whatever it has room for. */
    static lemma RoomForPadding(headerSize: nat, offset: nat, length: nat, capacity: nat)
      requires headerSize % UNIT == 0 && offset % UNIT == 0 && capacity % PAYLOAD_UNIT == 0
      requires headerSize + offset + length <= capacity
      ensures headerSize + offset + Align(length) <= capacity
    {
      var units := headerSize / UNIT + offset / UNIT;
      assert headerSize + offset == UNIT * units && capacity == UNIT * (16 * (capacity / PAYLOAD_UNIT));
      LeastMultiple(length, 16 * (capacity / PAYLOAD_UNIT) - units);
    }

    /** No multiple of four is between a length and what it is aligned to. */
    static lemma LeastMultiple(length: nat, n: int)
      requires length <= UNIT * n
      ensures Align(length) <= UNIT * n
    {
    }

    /** Zeroes up to the next aligned offset. */
    method EndWrite(dest: nat, length: nat)
      requires header != null && dest + Align(length) <= header.Length
      modifies header
      ensures forall i :: 0 <= i < header.Length && !(dest + length <= i < dest + Align(length)) ==>
                            header[i] == old(header[i])
      ensures forall i :: dest + length <= i < dest + Align(length) ==> header[i] == 0
    {
      if length % UNIT != 0 {
        forall i | dest + length <= i < dest + length + (UNIT - length % UNIT) {
          header[i] := 0;
        }
      }
    }

    /** The buffer holds other blocks from now on. */
    ghost method Adopt(after: seq<byte>, blocks: seq<seq<byte>>)
      requires header != null && header[..] == after && !readOnly
      requires capacity == header.Length && capacity % PAYLOAD_UNIT == 0 && Holding(headerSize, after, blocks)
      requires variableBufferOffset != 0 ==> VariableFits(headerSize, after, variableBufferOffset)
      modifies this`chunks
      ensures Valid() && chunks == blocks && SeenAs() == View(headerSize, after)
    {
      chunks := blocks;
    }

    /** The blocks have been appended, the rest of the object and of its header has not changed. */
    twostate predicate Extended(more: seq<seq<byte>>)
      reads this, header
    {
      && Valid() && !readOnly && old(header != null && UNIT <= headerSize <= header.Length)
      && chunks == old(chunks) + more && headerSize == old(headerSize)
      && Used() == EndOf(old(Used()), more)
      && UserHeader() == old(UserHeader())
    }

    method WriteBytes(data: seq<byte>) returns (ok: bool)
      requires Valid() && !readOnly && CanCount([data])
      modifies this, header
      ensures ok && Extended([data]) && variableBufferOffset == old(variableBufferOffset)
      ensures header == old(header) || fresh(header)
    {
      ghost var before, used := header[..], Used();
      EndOfOne(used, data);
      Lay(data);
      ghost var after := header[..];
      Finish(headerSize, before, after, chunks, used, data, variableBufferOffset);
      Adopt(after, chunks + [data]);
      ok := true;
    }

    method WriteNumber(t: NumberType, value: int) returns (ok: bool)
      requires Valid() && !readOnly && IsNumber(t, value) && CanCount(Chunks(Number(t, value)))
      modifies this, header
      ensures ok && Extended(Chunks(Number(t, value))) && variableBufferOffset == old(variableBufferOffset)
      ensures header == old(header) || fresh(header)
    {
      ok := WriteBytes(Encode(Unsigned(value, Width(t)), Width(t)));
    }

    method WriteBool(value: bool) returns (ok: bool)
      requires Valid() && !readOnly && CanCount(Chunks(Bool(value)))
      modifies this, header
      ensures ok && Extended(Chunks(Bool(value))) && variableBufferOffset == old(variableBufferOffset)
      ensures header == old(header) || fresh(header)
    {
      LengthIsNumber(if value then 1 else 0);
      ok := WriteNumber(Int, if value then 1 else 0);
    }

    /** WriteInt for the length, and WriteBytes. */
    method WriteWithLength(length: nat, bytes: seq<byte>) returns (ok: bool)
      requires Valid() && !readOnly && length <= INT_MAX && CanCount([Encode(length, 4), bytes])
      modifies this, header
      ensures ok && Extended([Encode(length, 4), bytes]) && variableBufferOffset == old(variableBufferOffset)
      ensures header == old(header) || fresh(header)
    {
      EndOfTwo(Used(), Encode(length, 4), bytes);
      LengthIsNumber(length);
      ok := WriteNumber(Int, length);
      if !ok {
        return;
      }
      PairAppended(old(chunks), Encode(length, 4), bytes);
      ok := WriteBytes(bytes);
    }

    method WriteString(chars: seq<byte>) returns (ok: bool)
      requires Valid() && !readOnly && IsItem(String(chars)) && CanCount(Chunks(String(chars)))
      modifies this, header
      ensures ok && Extended(Chunks(String(chars))) && variableBufferOffset == old(variableBufferOffset)
      ensures header == old(header) || fresh(header)
    {
      ok := WriteWithLength(|chars|, chars);
    }

    method WriteWString(wide: seq<nat>) returns (ok: bool)
      requires Valid() && !readOnly && IsItem(WString(wide)) && CanCount(Chunks(WString(wide)))
      modifies this, header
      ensures ok && Extended(Chunks(WString(wide))) && variableBufferOffset == old(variableBufferOffset)
      ensures header == old(header) || fresh(header)
    {
      ok := WriteWithLength(|wide|, EncodeUnits(wide, WCHAR_WIDTH));
    }

    method WriteString16(units: seq<nat>) returns (ok: bool)
      requires Valid() && !readOnly && IsItem(String16(units)) && CanCount(Chunks(String16(units)))
      modifies this, header
      ensures ok && Extended(Chunks(String16(units))) && variableBufferOffset == old(variableBufferOffset)
      ensures header == old(header) || fresh(header)
    {
      ok := WriteWithLength(|units|, EncodeUnits(units, CHAR16_WIDTH));
    }

    /** A negative length is refused, and nothing is written. */
    method WriteData(data: seq<byte>, length: int) returns (ok: bool)
      requires Valid() && !readOnly && length <= |data| && length <= INT_MAX
      requires length >= 0 ==> CanCount(Chunks(Data(data[..length])))
      modifies this, header
      ensures ok == (length >= 0) && variableBufferOffset == old(variableBufferOffset)
      ensures Extended(if length < 0 then [] else Chunks(Data(data[..length])))
      ensures header == old(header) || fresh(header)
    {
      if length < 0 {
        return false;
      }
      ok := WriteWithLength(length, data[..length]);
    }

    /** BeginWrite, the copy and EndWrite, as WriteBytes calls them. */
    method Lay(data: seq<byte>)
      requires Valid() && !readOnly && Align(Used()) + |data| < UINT32_LIMIT
      modifies this, header
      ensures header != null && (header == old(header) || fresh(header))
      ensures header.Length == capacity && capacity % PAYLOAD_UNIT == 0
      ensures headerSize == old(headerSize) && readOnly == old(readOnly) && chunks == old(chunks)
      ensures variableBufferOffset == old(variableBufferOffset)
      ensures Wrote(headerSize, old(header[..]), header[..], old(Used()), data)
    {
      ghost var before, used := header[..], Used();
      var dest := BeginWrite(|data|);
      ghost var grown := header[..];
      CopyAndPad(dest, data);
      WroteWhenCopied(headerSize, before, grown, header[..], used, data);
    }

    method CopyIn(dest: nat, data: seq<byte>)
      requires header != null && dest + |data| <= header.Length
      modifies header
      ensures header[..] == Pasted(old(header[..]), dest, data)
    {
      forall i | 0 <= i < |data| {
        header[dest + i] := data[i];
      }
    }

    method CopyAndPad(dest: nat, data: seq<byte>)
      requires header != null && dest + Align(|data|) <= header.Length
      modifies header
      ensures header[..][dest..dest + |data|] == data
      ensures SameUpTo(old(header[..]), header[..], dest)
    {
      CopyIn(dest, data);
      EndWrite(dest, |data|);
      assert header[..][dest..dest + |data|] == data;
    }

    /** Nothing has been written since BeginWriteData. */
    ghost predicate EndsWithVariableBuffer()
      reads this
    {
      EndsWithData(headerSize, chunks, variableBufferOffset)
    }

    ghost function VariableData(): seq<byte>
      requires |chunks| >= 2
      reads this
    {
      chunks[|chunks| - 1]
    }

    ghost function BeforeVariableBuffer(): seq<seq<byte>>
      requires |chunks| >= 2
      reads this
    {
      chunks[..|chunks| - 2]
    }

    /**
      Writes the length, and counts that many bytes to the payload whatever they are; returns where they
      start, or -1 for the null pointer.
     */
    method BeginWriteData(length: int) returns (dest: int)
      requires Valid() && !readOnly && variableBufferOffset == 0 && length <= INT_MAX
      requires length >= 0 ==> EndOf(Used(), [Encode(length, 4)]) + length < UINT32_LIMIT
      modifies this, header
      ensures length < 0 ==> dest == -1 && Extended([]) && variableBufferOffset == 0
      ensures length >= 0 ==>
                && EndsWithVariableBuffer() && BeforeVariableBuffer() == old(chunks) && |VariableData()| == length
                && Extended([Encode(length, 4), VariableData()])
                && dest == variableBufferOffset + UNIT
      ensures header == old(header) || fresh(header)
    {
      if length < 0 {
        return -1;
      }
      dest := Reserve(length);
    }

    method Reserve(length: nat) returns (dest: int)
      requires Valid() && !readOnly && variableBufferOffset == 0 && length <= INT_MAX
      requires EndOf(Used(), [Encode(length, 4)]) + length < UINT32_LIMIT
      modifies this, header
      ensures EndsWithVariableBuffer() && BeforeVariableBuffer() == old(chunks) && |VariableData()| == length
      ensures Extended([Encode(length, 4), VariableData()])
      ensures dest == variableBufferOffset + UNIT
      ensures header == old(header) || fresh(header)
    {
      OffsetOfNext(headerSize, header[..], chunks);
      ghost var base, data := chunks, [];
      dest, data := WriteLengthAndGap(length);
      NowLast(base, Encode(length, 4), data, chunks);
      VariableStands(headerSize, header[..], base, data);
      variableBufferOffset := dest - UNIT;
    }

    method WriteLengthAndGap(length: nat) returns (dest: int, ghost data: seq<byte>)
      requires Valid() && !readOnly && length <= INT_MAX && EndOf(Used(), [Encode(length, 4)]) + length < UINT32_LIMIT
      modifies this, header
      ensures |data| == length && Extended([Encode(length, 4), data])
      ensures dest == headerSize + Align(old(Used())) + UNIT && variableBufferOffset == old(variableBufferOffset)
      ensures header == old(header) || fresh(header)
    {
      LengthIsNumber(length);
      OffsetOfNext(headerSize, header[..], chunks);
      EndOfOne(Used(), Encode(length, 4));
      ghost var base, used := chunks, Used();
      var ok := WriteNumber(Int, length);
      dest, data := WriteGap(length);
      PairAppended(base, Encode(length, 4), data);
      EndOfTwo(used, Encode(length, 4), data);
    }

    /** BeginWrite and EndWrite, as BeginWriteData calls them: the bytes in between are whatever they are. */
    method WriteGap(length: nat) returns (dest: int, ghost data: seq<byte>)
      requires Valid() && !readOnly && Align(Used()) + length < UINT32_LIMIT
      modifies this, header
      ensures |data| == length && Extended([data]) && dest == headerSize + Align(old(Used()))
      ensures variableBufferOffset == old(variableBufferOffset)
      ensures header == old(header) || fresh(header)
    {
      ghost var before, used := header[..], Used();
      dest := LayGap(length);
      ghost var after := header[..];
      data := after[dest..dest + length];
      EndOfOne(used, data);
      Finish(headerSize, before, after, chunks, used, data, variableBufferOffset);
      Adopt(after, chunks + [data]);
    }

    method LayGap(length: nat) returns (dest: int)
      requires Valid() && !readOnly && Align(Used()) + length < UINT32_LIMIT
      modifies this, header
      ensures header != null && (header == old(header) || fresh(header))
      ensures header.Length == capacity && capacity % PAYLOAD_UNIT == 0
      ensures headerSize == old(headerSize) && readOnly == old(readOnly) && chunks == old(chunks)
      ensures variableBufferOffset == old(variableBufferOffset)
      ensures dest == headerSize + Align(old(Used())) && dest + length <= header.Length
      ensures Wrote(headerSize, old(header[..]), header[..], old(Used()), header[..][dest..dest + length])
    {
      ghost var before, used := header[..], Used();
      dest := BeginWrite(length);
      ghost var grown := header[..];
      EndWrite(dest, length);
      ghost var after := header[..];
      assert SameUpTo(grown, after, dest);
      ghost var gap := after[dest..dest + length];
      WroteWhenCopied(headerSize, before, grown, after, used, gap);
    }

    /** What a caller may do through the pointer that BeginWriteData returns, until the next write. */
    method FillWriteData(data: seq<byte>)
      requires Valid() && !readOnly && EndsWithVariableBuffer() && |data| <= |VariableData()|
      modifies this`chunks, header
      ensures Valid() && EndsWithVariableBuffer() && chunks == Overwritten(old(chunks), data)
      ensures Used() == old(Used()) && header.Length == old(header.Length) >= variableBufferOffset + UNIT + |data|
      ensures header[..] == Pasted(old(header[..]), variableBufferOffset + UNIT, data)
      ensures UserHeader() == old(UserHeader())
    {
      ghost var before := header[..];
      ghost var after := FillHolds(headerSize, before, chunks, variableBufferOffset, data);
      CopyIn(variableBufferOffset + UNIT, data);
      Adopt(after, Overwritten(chunks, data));
    }

    /** The int at variable_buffer_offset_. */
    ghost function VariableLength(): nat
      requires header != null && variableBufferOffset + UNIT <= header.Length
      reads this, header
    {
      Decode(header[..][variableBufferOffset..variableBufferOffset + UNIT])
    }

    /**
      Cuts the variable buffer short; a length that is negative or too great is ignored. Right after the
      variable buffer was written, its first bytes stay. After later writes the end of those is cut off
      instead, and all that can be said of the payload is which bytes it has.
     */
    method TrimWriteData(newLength: int)
      requires Valid() && variableBufferOffset != 0
      modifies this`chunks, header
      ensures Valid() && UserHeader() == old(UserHeader())
      ensures !(0 <= newLength <= old(VariableLength())) ==>
                header[..] == old(header[..]) && chunks == old(chunks)
      ensures 0 <= newLength <= old(VariableLength()) ==>
                var cut := old(VariableLength()) - newLength;
                && cut <= old(Used()) && Used() == old(Used()) - cut
                && header[..] == Trimmed(old(header[..]), variableBufferOffset, old(Used()) - cut, newLength)
      ensures 0 <= newLength <= old(VariableLength()) && old(EndsWithVariableBuffer()) ==>
                EndsWithVariableBuffer() && chunks == CutLast(old(chunks), newLength)
    {
      assert header[variableBufferOffset..variableBufferOffset + UNIT] ==
             header[..][variableBufferOffset..variableBufferOffset + UNIT];
      var current := Decode(header[variableBufferOffset..variableBufferOffset + UNIT]);
      assert current == VariableLength();
      if newLength < 0 || newLength > current {
        return;
      }
      ghost var used := Used();
      TrimTo(current, newLength);
      assert Used() == used - (current - newLength);
    }

    method TrimTo(current: nat, newLength: nat)
      requires Valid() && variableBufferOffset != 0 && newLength <= current == VariableLength()
      modifies this`chunks, header
      ensures Valid() && UserHeader() == old(UserHeader())
      ensures current - newLength <= old(Used()) && Used() == old(Used()) - (current - newLength)
      ensures header[..] ==
                Trimmed(old(header[..]), variableBufferOffset, old(Used()) - (current - newLength), newLength)
      ensures old(EndsWithVariableBuffer()) ==> EndsWithVariableBuffer() && chunks == CutLast(old(chunks), newLength)
    {
      ghost var before := header[..];
      assert Holding(headerSize, before, chunks) && VariableFits(headerSize, before, variableBufferOffset);
      LimitsOf4();
      assert header[..UNIT] == before[..UNIT];
      var size := Decode(header[..UNIT]);
      assert size == PayloadSize(View(headerSize, before)) && current - newLength <= size;
      assert size == Used();
      StoreTrimmed(size - (current - newLength), newLength);
      ghost var after := header[..];
      TrimHolds(headerSize, before, after, chunks, variableBufferOffset, size, current, newLength);
      Adopt(after, NewBlocks(headerSize, after, chunks, variableBufferOffset, newLength));
    }

    /** The payload size, and the length of the variable buffer. */
    method StoreTrimmed(size: nat, newLength: nat)
      requires header != null && UNIT <= variableBufferOffset && variableBufferOffset + UNIT <= header.Length
      requires size < UINT32_LIMIT && newLength < UINT32_LIMIT
      modifies header
      ensures header[..] == Trimmed(old(header[..]), variableBufferOffset, size, newLength)
    {
      StoreUInt32(header, 0, size);
      StoreUInt32(header, variableBufferOffset, newLength);
    }

    // --------------------------------------------------------------------------------------------
    // Sequences of writes
    // --------------------------------------------------------------------------------------------

    /** The Write call for this kind of item. */
    method WriteItem(item: Item)
      requires Valid() && !readOnly && IsItem(item) && CanCount(Chunks(item))
      modifies this, header
      ensures Extended(Chunks(item)) && variableBufferOffset == old(variableBufferOffset)
      ensures header == old(header) || fresh(header)
    {
      var ok;
      match item
      case Bool(b) => ok := WriteBool(b);
      case Number(t, value) => ok := WriteNumber(t, value);
      case String(chars) => ok := WriteString(chars);
      case WString(wide) => ok := WriteWString(wide);
      case String16(units) => ok := WriteString16(units);
      case Data(bytes) =>
        assert bytes[..|bytes|] == bytes;
        ok := WriteData(bytes, |bytes|);
      case Bytes(raw) => ok := WriteBytes(raw);
    }

    /** Any sequence of Write calls leaves the blocks of its items, in their order. */
    method WriteAll(items: seq<Item>)
      requires Valid() && !readOnly && AreItems(items) && CanCount(AllChunks(items))
      modifies this, header
      ensures Extended(AllChunks(items)) && variableBufferOffset == old(variableBufferOffset)
      ensures header == old(header) || fresh(header)
      decreases items
    {
      if items == [] {
        assert chunks + [] == chunks;
        return;
      }
      ghost var before, used := chunks, Used();
      EndOfFirst(used, items);
      WriteItem(items[0]);
      WriteAll(items[1..]);
      ChunksOfFirst(before, items);
    }

    /** BeginWriteData, a copy through the pointer it returns, and TrimWriteData. */
    method WriteInPlace(room: nat, data: seq<byte>)
      requires Valid() && !readOnly && variableBufferOffset == 0 && |data| <= room <= INT_MAX
      requires EndOf(Used(), [Encode(room, 4)]) + room < UINT32_LIMIT
      modifies this, header
      ensures Extended(Chunks(Data(data)))
      ensures header == old(header) || fresh(header)
    {
      ghost var base, used := chunks, Used();
      var dest := BeginWriteData(room);
      ghost var gap := VariableData();
      FillAndTrim(data);
      EndOfCut(used, room, gap, data);
    }

    /** The copy through the pointer, and TrimWriteData. */
    method FillAndTrim(data: seq<byte>)
      requires Valid() && !readOnly && EndsWithVariableBuffer() && |data| <= |VariableData()|
      modifies this`chunks, header
      ensures Valid() && chunks == old(BeforeVariableBuffer()) + [Encode(|data|, 4), data]
      ensures |old(VariableData())| - |data| <= old(Used())
      ensures Used() == old(Used()) - (|old(VariableData())| - |data|)
      ensures UserHeader() == old(UserHeader())
    {
      FilledAndCut(chunks, data);
      FillWriteData(data);
      CutTo(|data|);
    }

    /** TrimWriteData right after the variable buffer was written. */
    method CutTo(n: nat)
      requires Valid() && !readOnly && EndsWithVariableBuffer() && n <= |VariableData()|
      modifies this`chunks, header
      ensures Valid() && UserHeader() == old(UserHeader()) && chunks == CutLast(old(chunks), n)
      ensures |old(VariableData())| - n <= old(Used()) && Used() == old(Used()) - (|old(VariableData())| - n)
    {
      DataHasLength(headerSize, header[..], chunks, variableBufferOffset);
      assert VariableLength() == |VariableData()|;
      TrimWriteData(n);
    }

    // --------------------------------------------------------------------------------------------
    // Readers
    // --------------------------------------------------------------------------------------------

    method ReadBytes(iter: Iterator, length: int) returns (ok: bool, data: seq<byte>)
      requires Valid()
      modifies iter
      ensures var r := Take(SeenAs(), old(iter.place), length);
              ok == r.ok && data == r.bytes && iter.place == r.place
    {
      ghost var v := SeenAs();
      var at := if iter.place.Null? then headerSize else iter.place.offset;
      ok, data := BytesAt(at, length);
      if ok {
        iter.place := At(at + AlignInt(length, UNIT));
      } else {
        iter.place := At(at);
      }
      assert SeenAs() == v;
    }

    method BytesAt(at: int, length: int) returns (ok: bool, data: seq<byte>)
      requires Valid()
      ensures ok == IteratorHasRoomFor(SeenAs(), at, length)
      ensures data == if ok then SeenAs().bytes[at..at + length] else []
    {
      var end := EndOfPayload();
      if length < 0 || at < 0 || at > end || at + length > end {
        return false, [];
      }
      data := Slice(at, length);
      ok := true;
    }

    method EndOfPayload() returns (end: nat)
      requires Valid()
      ensures end == Pickles.EndOfPayload(SeenAs())
    {
      if header == null {
        return headerSize;
      }
      assert header[..][..UNIT] == header[..UNIT];
      end := headerSize + Decode(header[..UNIT]);
    }

    method Slice(at: nat, length: nat) returns (data: seq<byte>)
      requires Valid() && at + length <= Pickles.EndOfPayload(SeenAs())
      ensures data == SeenAs().bytes[at..at + length]
    {
      if header == null {
        return [];
      }
      data := header[at..at + length];
      assert header[..][at..at + length] == data;
    }

    method ReadBool(iter: Iterator) returns (ok: bool, result: bool)
      requires Valid()
      modifies iter
      ensures var r := Read(SeenAs(), old(iter.place), KBool);
              iter.place == r.place && ok == r.Success? && (ok ==> r.item == Bool(result))
    {
      var data;
      ok, data := ReadBytes(iter, 4);
      result := ok && Decode(data) != 0;
    }

    method ReadNumber(iter: Iterator, t: NumberType) returns (ok: bool, result: int)
      requires Valid()
      modifies iter
      ensures var r := Read(SeenAs(), old(iter.place), KNumber(t));
              iter.place == r.place && ok == r.Success? && (ok ==> r.item == Number(t, result))
    {
      var data;
      ok, data := ReadBytes(iter, Width(t));
      result := if IsSigned(t) then Signed(Decode(data), Width(t)) else Decode(data);
    }

    method ReadLength(iter: Iterator) returns (ok: bool, result: int)
      requires Valid()
      modifies iter
      ensures Length(ok, result, iter.place) == Pickles.ReadLength(SeenAs(), old(iter.place))
    {
      var data;
      ok, data := ReadBytes(iter, 4);
      result := if ok then Signed(Decode(data), 4) else 0;
      ok := ok && result >= 0;
    }

    method ReadString(iter: Iterator) returns (ok: bool, result: seq<byte>)
      requires Valid()
      modifies iter
      ensures var r := Read(SeenAs(), old(iter.place), KString);
              iter.place == r.place && ok == r.Success? && (ok ==> r.item == String(result))
    {
      ok, result := ReadData(iter);
    }

    method ReadData(iter: Iterator) returns (ok: bool, result: seq<byte>)
      requires Valid()
      modifies iter
      ensures var r := Read(SeenAs(), old(iter.place), KData);
              iter.place == r.place && ok == r.Success? && (ok ==> r.item == Data(result))
      ensures var r := Read(SeenAs(), old(iter.place), KString);
              iter.place == r.place && ok == r.Success? && (ok ==> r.item == String(result))
    {
      var length;
      ok, length := ReadLength(iter);
      if !ok {
        return false, [];
      }
      FitsInInt(length, 1);
      ok, result := ReadBytes(iter, length);
    }

    method ReadWString(iter: Iterator) returns (ok: bool, result: seq<nat>)
      requires Valid()
      modifies iter
      ensures var r := Read(SeenAs(), old(iter.place), KWString);
              iter.place == r.place && ok == r.Success? && (ok ==> r.item == WString(result))
    {
      result := [];
      var length, data;
      ok, length := ReadLength(iter);
      if !ok {
        return;
      }
      if length > INT_MAX / WCHAR_WIDTH {
        ok := false;
        return;
      }
      FitsInInt(length, WCHAR_WIDTH);
      ok, data := ReadBytes(iter, length * WCHAR_WIDTH);
      if ok {
        result := DecodeUnits(data, length, WCHAR_WIDTH);
      }
    }

    /** The size is computed as a size_t and passed as an int, without a check. */
    method ReadString16(iter: Iterator) returns (ok: bool, result: seq<nat>)
      requires Valid()
      modifies iter
      ensures var r := Read(SeenAs(), old(iter.place), KString16);
              iter.place == r.place && ok == r.Success? && (ok ==> r.item == String16(result))
    {
      result := [];
      var length, data;
      ok, length := ReadLength(iter);
      if !ok {
        return;
      }
      AsIntOfSmall(length * CHAR16_WIDTH);
      ok, data := ReadBytes(iter, AsInt(length * CHAR16_WIDTH));
      if ok {
        result := DecodeUnits(data, length, CHAR16_WIDTH);
      }
    }
  }

  // ----------------------------------------------------------------------------------------------
  // The object and the format
  // ----------------------------------------------------------------------------------------------

  ghost predicate ReadsAs(v: View, items: seq<Item>)
    requires IsReadable(v)
  {
    var r := ReadAll(v, Null, KindsOf(items));
    && r.ok && r.items == items
    && forall kind: Kind :: (kind.KBytes? ==> kind.length > 0) ==> Read(v, r.place, kind).Failed?
  }

  /**
    What the blocks of a Pickle spell is read back from it in the same order, and from one made of its
    data() and size(), which finds the same header size; further reads of positive width then fail.
   */
  lemma PickleReadsBack(p: Pickle, items: seq<Item>)
    requires p.Valid() && !p.readOnly && p.headerSize < UINT32_LIMIT
    requires AreItems(items) && p.chunks == AllChunks(items)
    ensures var w := FromData(p.header[..p.headerSize + p.Used()]);
            && w.headerSize == p.headerSize && IsReadable(w)
            && ReadsAs(p.SeenAs(), items) && ReadsAs(w, items)
  {
    var v := p.SeenAs();
    var data := p.header[..p.headerSize + p.Used()];
    assert data == v.bytes[..EndOfPayload(v)];
    WrittenIsReadBack(v, items);
    RebuiltIsTheSame(v);
    WrittenIsReadBack(FromData(data), items);
  }

  lemma {:induction false} AllChunksSum(items: seq<Item>, more: seq<Item>)
    ensures AllChunks(items + more) == AllChunks(items) + AllChunks(more)
    decreases items
  {
    if items == [] {
      assert items + more == more;
    } else {
      assert (items + more)[1..] == items[1..] + more;
      AllChunksSum(items[1..], more);
      Regroup(Chunks(items[0]), AllChunks(items[1..]), AllChunks(more));
    }
  }

  lemma AllChunksOne(item: Item)
    ensures AllChunks([item]) == Chunks(item)
  {
    assert [item][1..] == [];
  }

  /** Whatever is written into a new Pickle, by whichever calls, is read back from it and from its bytes. */
  method RoundTrip(items: seq<Item>) returns (p: Pickle)
    requires AreItems(items) && EndOf(0, AllChunks(items)) < UINT32_LIMIT
    ensures fresh(p) && p.Valid() && p.header != null && p.headerSize + p.Used() <= p.header.Length
    ensures ReadsAs(p.SeenAs(), items)
    ensures var w := FromData(p.header[..p.headerSize + p.Used()]);
            w.headerSize == p.headerSize && IsReadable(w) && ReadsAs(w, items)
  {
    p := new Pickle();
    p.WriteAll(items);
    PickleReadsBack(p, items);
  }

  /** The same with data that was written through a buffer of the caller's choice, and then cut short. */
  method RoundTripInPlace(first: seq<Item>, room: nat, data: seq<byte>, last: seq<Item>) returns (p: Pickle)
    requires AreItems(first) && AreItems(last) && |data| <= room <= INT_MAX
    requires EndOf(0, AllChunks(first) + [Encode(room, 4)]) + room < UINT32_LIMIT
    requires EndOf(0, AllChunks(first + [Data(data)] + last)) < UINT32_LIMIT
    ensures fresh(p) && p.Valid() && p.header != null && p.headerSize + p.Used() <= p.header.Length
    ensures ReadsAs(p.SeenAs(), first + [Data(data)] + last)
    ensures var w := FromData(p.header[..p.headerSize + p.Used()]);
            w.headerSize == p.headerSize && IsReadable(w) && ReadsAs(w, first + [Data(data)] + last)
  {
    ghost var used, kept := ChunksInPlace(first, room, data, last);
    ItemsJoin(first, data, last);
    p := new Pickle();
    p.WriteAll(first);
    assert p.chunks == AllChunks(first) && p.Used() == used;
    p.WriteInPlace(room, data);
    assert p.chunks == AllChunks(first) + Chunks(Data(data)) && p.Used() == kept;
    p.WriteAll(last);
    PickleReadsBack(p, first + [Data(data)] + last);
  }

  lemma ItemsJoin(first: seq<Item>, data: seq<byte>, last: seq<Item>)
    requires AreItems(first) && AreItems(last) && |data| <= INT_MAX
    ensures AreItems(first + [Data(data)] + last)
  {
  }

  /** How far the payload goes before the data and after it, and that it can be counted throughout. */
  lemma ChunksInPlace(first: seq<Item>, room: nat, data: seq<byte>, last: seq<Item>) returns (used: nat, kept: nat)
    ensures var items := first + [Data(data)] + last;
            && AllChunks(items) == AllChunks(first) + Chunks(Data(data)) + AllChunks(last)
            && [] + AllChunks(first) == AllChunks(first)
            && used == EndOf(0, AllChunks(first)) <= kept == EndOf(used, Chunks(Data(data)))
            && kept <= EndOf(kept, AllChunks(last)) == EndOf(0, AllChunks(items))
    ensures EndOf(used, [Encode(room, 4)]) == EndOf(0, AllChunks(first) + [Encode(room, 4)])
  {
    AllChunksSum(first + [Data(data)], last);
    AllChunksSum(first, [Data(data)]);
    AllChunksOne(Data(data));
    var a, b, c := AllChunks(first), Chunks(Data(data)), AllChunks(last);
    used, kept := EndOf(0, a), EndOf(EndOf(0, a), b);
    EndOfSum(0, a, b);
    EndOfSum(0, a + b, c);
    EndOfSum(used, b, []);
    EndOfSum(kept, c, []);
    EndOfSum(0, a, [Encode(room, 4)]);
  }
}
