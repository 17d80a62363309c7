/** A read accepts exactly what a write lays down, and what was written is read back. */
module PickleRoundTrip {
  import opened Pickles

  // ----------------------------------------------------------------------------------------------
  // Numbers
  // ----------------------------------------------------------------------------------------------

  lemma {:induction false} DecodeEncode(value: nat, width: nat)
    requires value < Limit(width)
    ensures Decode(Encode(value, width)) == value
  {
    if width > 0 { DecodeEncode(value / 256, width - 1); }
  }

  lemma {:induction false} EncodeDecode(bytes: seq<byte>)
    ensures Encode(Decode(bytes), |bytes|) == bytes
    decreases |bytes|
  {
    if bytes != [] {
      EncodeDecode(bytes[1..]);
      assert (bytes[0] + 256 * Decode(bytes[1..])) / 256 == Decode(bytes[1..]);
      assert [bytes[0]] + bytes[1..] == bytes;
    }
  }

  lemma {:induction false} DecodeEncodeUnits(units: seq<nat>, width: nat)
    requires forall k :: 0 <= k < |units| ==> units[k] < Limit(width)
    ensures DecodeUnits(EncodeUnits(units, width), |units|, width) == units
    decreases units
  {
    if units != [] {
      var head, tail := Encode(units[0], width), EncodeUnits(units[1..], width);
      assert (head + tail)[..width] == head && (head + tail)[width..] == tail;
      DecodeEncode(units[0], width);
      DecodeEncodeUnits(units[1..], width);
      assert [units[0]] + units[1..] == units;
    }
  }

  lemma {:induction false} EncodeDecodeUnits(bytes: seq<byte>, count: nat, width: nat)
    requires |bytes| == count * width
    ensures EncodeUnits(DecodeUnits(bytes, count, width), width) == bytes
    ensures forall k :: 0 <= k < count ==> DecodeUnits(bytes, count, width)[k] < Limit(width)
    decreases count
  {
    if count > 0 {
      assert count * width == width + (count - 1) * width;
      EncodeDecode(bytes[..width]);
      EncodeDecodeUnits(bytes[width..], count - 1, width);
      assert bytes[..width] + bytes[width..] == bytes;
    }
  }

  lemma SignedUnsigned(value: int, width: nat)
    requires width > 0 && 0 <= 2 * value + Limit(width) < 2 * Limit(width)
    ensures Signed(Unsigned(value, width), width) == value
  {
    var limit := Limit(width);
    Reduced(value, limit, if value < 0 then value + limit else value);
  }

  lemma UnsignedSigned(value: nat, width: nat)
    requires width > 0 && value < Limit(width)
    ensures Unsigned(Signed(value, width), width) == value
    ensures 0 <= 2 * Signed(value, width) + Limit(width) < 2 * Limit(width)
  {
    Reduced(Signed(value, width), Limit(width), value);
  }

  lemma Reduced(value: int, limit: nat, rest: nat)
    requires limit > 0 && rest < limit && (value == rest || value + limit == rest)
    ensures value % limit == rest
  {
    assert value == limit * (value / limit) + value % limit;
  }

  // ----------------------------------------------------------------------------------------------
  // What a read accepts
  // ----------------------------------------------------------------------------------------------

  /** The blocks stand one after the other from the offset on, each after the padding of the one before. */
  ghost predicate Stand(v: View, at: int, chunks: seq<seq<byte>>, next: int)
    requires IsReadable(v)
    decreases chunks
  {
    if chunks == [] then at == next
    else
      && IteratorHasRoomFor(v, at, |chunks[0]|)
      && v.bytes[at..at + |chunks[0]|] == chunks[0]
      && Stand(v, at + Align(|chunks[0]|), chunks[1..], next)
  }

  lemma StandOne(v: View, at: int, chunk: seq<byte>, next: int)
    requires IsReadable(v)
    ensures Stand(v, at, [chunk], next) <==>
              IteratorHasRoomFor(v, at, |chunk|) && v.bytes[at..at + |chunk|] == chunk && next == at + Align(|chunk|)
  {
    assert [chunk][1..] == [];
  }

  lemma StandTwo(v: View, at: int, first: seq<byte>, second: seq<byte>, next: int)
    requires IsReadable(v)
    ensures Stand(v, at, [first, second], next) <==>
              && IteratorHasRoomFor(v, at, |first|) && v.bytes[at..at + |first|] == first
              && Stand(v, at + Align(|first|), [second], next)
  {
    assert [first, second][1..] == [second];
  }

  lemma TakeAccepts(v: View, place: Place, chunk: seq<byte>, next: Place)
    requires IsReadable(v)
    ensures Take(v, place, |chunk|) == Taken(true, chunk, next) <==>
              next.At? && Stand(v, Start(v, place), [chunk], next.offset)
  {
    if next.At? { StandOne(v, Start(v, place), chunk, next.offset); }
  }

  lemma LengthAccepts(v: View, place: Place, n: int, next: Place)
    requires IsReadable(v)
    ensures ReadLength(v, place) == Length(true, n, next) <==>
              0 <= n <= INT_MAX && next.At? && Stand(v, Start(v, place), [Encode(n, 4)], next.offset)
  {
    LimitsOf4();
    var taken := Take(v, place, 4);
    if taken.ok { EncodeDecode(taken.bytes); }
    if 0 <= n <= INT_MAX {
      DecodeEncode(n, 4);
      TakeAccepts(v, place, Encode(n, 4), next);
    }
  }

  /** A length and that many units stand there. */
  ghost predicate UnitsStand(v: View, at: int, n: int, bytes: seq<byte>, width: nat, next: Place)
    requires IsReadable(v)
  {
    && 0 <= n && |bytes| == n * width <= INT_MAX
    && next.At? && Stand(v, at, [Encode(n, 4), bytes], next.offset)
  }

  lemma UnitsStandWhenRead(v: View, place: Place, width: nat)
    requires IsReadable(v) && (0 < width <= CHAR16_WIDTH || width == WCHAR_WIDTH)
    ensures var r := TakeUnits(v, place, width);
            r.1.ok ==> UnitsStand(v, Start(v, place), r.0.value, r.1.bytes, width, r.1.place)
  {
    var r := TakeUnits(v, place, width);
    if r.1.ok {
      var at, first := Start(v, place), Encode(r.0.value, 4);
      LengthAccepts(v, place, r.0.value, r.0.place);
      TakeAccepts(v, r.0.place, r.1.bytes, r.1.place);
      StandTogether(v, at, first, r.1.bytes, r.0.place.offset, r.1.place.offset);
    }
  }

  lemma StandTogether(v: View, at: int, first: seq<byte>, second: seq<byte>, middle: int, next: int)
    requires IsReadable(v) && Stand(v, at, [first], middle) && Stand(v, middle, [second], next)
    ensures Stand(v, at, [first, second], next)
  {
    StandOne(v, at, first, middle);
    StandTwo(v, at, first, second, next);
  }

  lemma UnitsReadWhenStanding(v: View, place: Place, width: nat, n: int, bytes: seq<byte>, next: Place)
    requires IsReadable(v) && (0 < width <= CHAR16_WIDTH || width == WCHAR_WIDTH)
    requires UnitsStand(v, Start(v, place), n, bytes, width, next)
    ensures var r := TakeUnits(v, place, width); r.1 == Taken(true, bytes, next) && r.0.value == n
  {
    var middle := At(Start(v, place) + Align(4));
    StandTwo(v, Start(v, place), Encode(n, 4), bytes, next.offset);
    StandOne(v, Start(v, place), Encode(n, 4), middle.offset);
    FitsInInt(n, width);
    LengthAccepts(v, place, n, middle);
    TakeAccepts(v, middle, bytes, next);
  }

  lemma FitsInInt(n: nat, width: nat)
    requires 0 < width <= 4 && n * width <= INT_MAX
    ensures n <= INT_MAX && AsInt(n * width) == n * width
    ensures width == 4 ==> n <= INT_MAX / 4
  {
    LimitsOf4();
  }

  /** The item stands at the offset, in a form the kind of read takes, and the next one would at `next`. */
  ghost predicate ItemStands(v: View, at: int, kind: Kind, item: Item, next: Place)
    requires IsReadable(v)
  {
    KindOf(item) == kind && IsItem(item) && next.At? && Stand(v, at, Chunks(item), next.offset)
  }

  function ReadAs(t: NumberType, bytes: seq<byte>): int {
    if IsSigned(t) then Signed(Decode(bytes), Width(t)) else Decode(bytes)
  }

  lemma NumberOfBytes(t: NumberType, bytes: seq<byte>)
    requires |bytes| == Width(t)
    ensures IsNumber(t, ReadAs(t, bytes)) && Encode(Unsigned(ReadAs(t, bytes), Width(t)), Width(t)) == bytes
  {
    EncodeDecode(bytes);
    if IsSigned(t) { UnsignedSigned(Decode(bytes), Width(t)); }
    else { Reduced(Decode(bytes), Limit(Width(t)), Decode(bytes)); }
  }

  lemma BytesOfNumber(t: NumberType, value: int)
    requires IsNumber(t, value)
    ensures ReadAs(t, Encode(Unsigned(value, Width(t)), Width(t))) == value
  {
    DecodeEncode(Unsigned(value, Width(t)), Width(t));
    if IsSigned(t) { SignedUnsigned(value, Width(t)); } else { Reduced(value, Limit(Width(t)), value); }
  }

  lemma NumberAccepts(v: View, place: Place, t: NumberType, value: int, next: Place)
    requires IsReadable(v)
    ensures Read(v, place, KNumber(t)) == Success(Number(t, value), next) <==>
              ItemStands(v, Start(v, place), KNumber(t), Number(t, value), next)
  {
    var taken := Take(v, place, Width(t));
    NumberRead(v, place, t);
    if taken.ok {
      NumberOfBytes(t, taken.bytes);
      TakeAccepts(v, place, taken.bytes, taken.place);
    }
    if ItemStands(v, Start(v, place), KNumber(t), Number(t, value), next) {
      BytesOfNumber(t, value);
      TakeAccepts(v, place, Encode(Unsigned(value, Width(t)), Width(t)), next);
    }
  }

  lemma NumberRead(v: View, place: Place, t: NumberType)
    requires IsReadable(v)
    ensures var taken := Take(v, place, Width(t));
            Read(v, place, KNumber(t)) ==
              if taken.ok then Success(Number(t, ReadAs(t, taken.bytes)), taken.place) else Failed(taken.place)
  {
  }

  lemma TextRead(v: View, place: Place, kind: Kind)
    requires IsReadable(v) && (kind.KString? || kind.KData?)
    ensures var r := Read(v, place, kind);
            r.Success? ==> ItemStands(v, Start(v, place), kind, r.item, r.place)
  {
    UnitsStandWhenRead(v, place, 1);
  }

  lemma WideRead(v: View, place: Place)
    requires IsReadable(v)
    ensures var r := Read(v, place, KWString);
            r.Success? ==> ItemStands(v, Start(v, place), KWString, r.item, r.place)
  {
    UnitsStandWhenRead(v, place, WCHAR_WIDTH);
    var r := TakeUnits(v, place, WCHAR_WIDTH);
    if r.1.ok { EncodeDecodeUnits(r.1.bytes, r.0.value, WCHAR_WIDTH); }
  }

  /** Although ReadString16 never asks whether twice the length fits in an int. */
  lemma String16Read(v: View, place: Place)
    requires IsReadable(v)
    ensures var r := Read(v, place, KString16);
            r.Success? ==> ItemStands(v, Start(v, place), KString16, r.item, r.place)
  {
    UnitsStandWhenRead(v, place, CHAR16_WIDTH);
    var r := TakeUnits(v, place, CHAR16_WIDTH);
    if r.1.ok { EncodeDecodeUnits(r.1.bytes, r.0.value, CHAR16_WIDTH); }
  }

  lemma TextStands(v: View, place: Place, item: Item, next: Place)
    requires IsReadable(v) && (item.String? || item.Data? || item.WString? || item.String16?)
    requires ItemStands(v, Start(v, place), KindOf(item), item, next)
    ensures Read(v, place, KindOf(item)) == Success(item, next)
  {
    match item
    case String(chars) => UnitsReadWhenStanding(v, place, 1, |chars|, chars, next);
    case Data(bytes) => UnitsReadWhenStanding(v, place, 1, |bytes|, bytes, next);
    case WString(wide) =>
      UnitsReadWhenStanding(v, place, WCHAR_WIDTH, |wide|, EncodeUnits(wide, WCHAR_WIDTH), next);
      DecodeEncodeUnits(wide, WCHAR_WIDTH);
    case String16(units) =>
      UnitsReadWhenStanding(v, place, CHAR16_WIDTH, |units|, EncodeUnits(units, CHAR16_WIDTH), next);
      DecodeEncodeUnits(units, CHAR16_WIDTH);
    case _ =>
  }

  /**
    In any buffer, a read of any kind but bool accepts exactly the items whose written form stands in
    the payload at the iterator, and moves to the end of that form.
   */
  lemma ReadAccepts(v: View, place: Place, kind: Kind, item: Item, next: Place)
    requires IsReadable(v) && kind != KBool && (kind.KBytes? ==> kind.length <= INT_MAX)
    ensures Read(v, place, kind) == Success(item, next) <==> ItemStands(v, Start(v, place), kind, item, next)
  {
    if kind.KNumber? {
      if item.Number? { NumberAccepts(v, place, item.t, item.value, next); }
    } else if kind.KBytes? {
      if item.Bytes? { TakeAccepts(v, place, item.raw, next); }
    } else {
      if kind.KWString? { WideRead(v, place); }
      else if kind.KString16? { String16Read(v, place); }
      else { TextRead(v, place, kind); }
      if ItemStands(v, Start(v, place), kind, item, next) { TextStands(v, place, item, next); }
    }
  }

  /** ReadBool takes any int that is there, and any but 0 for true: what WriteBool never writes, too. */
  lemma ReadBoolAccepts(v: View, place: Place, b: bool, next: Place)
    requires IsReadable(v)
    ensures Read(v, place, KBool) == Success(Bool(b), next) <==>
              exists value: int :: (b <==> value != 0) && 0 <= value < UINT32_LIMIT && next.At? &&
                                   Stand(v, Start(v, place), [Encode(value, 4)], next.offset)
    ensures ItemStands(v, Start(v, place), KBool, Bool(b), next) ==>
              Read(v, place, KBool) == Success(Bool(b), next)
  {
    LimitsOf4();
    var taken := Take(v, place, 4);
    if taken.ok {
      EncodeDecode(taken.bytes);
      TakeAccepts(v, place, taken.bytes, taken.place);
    }
    forall value: nat | value < UINT32_LIMIT
      ensures next.At? && Stand(v, Start(v, place), [Encode(value, 4)], next.offset) ==>
                taken == Taken(true, Encode(value, 4), next) && Decode(taken.bytes) == value
    {
      TakeAccepts(v, place, Encode(value, 4), next);
      DecodeEncode(value, 4);
    }
  }

  // ----------------------------------------------------------------------------------------------
  // What a payload holds
  // ----------------------------------------------------------------------------------------------

  /** From the unaligned offset on, each block at the next aligned offset; between them may be anything. */
  ghost predicate Laid(payload: seq<byte>, at: nat, chunks: seq<seq<byte>>)
    decreases chunks
  {
    if chunks == [] then at == |payload|
    else
      var next := Align(at) + |chunks[0]|;
      next <= |payload| && payload[Align(at)..next] == chunks[0] && Laid(payload, next, chunks[1..])
  }

  ghost predicate Holds(payload: seq<byte>, chunks: seq<seq<byte>>) {
    Laid(payload, 0, chunks)
  }

  /** What BeginWrite, the copy and EndWrite make of a payload. */
  ghost predicate Appended(before: seq<byte>, after: seq<byte>, chunk: seq<byte>) {
    before <= after && |after| == Align(|before|) + |chunk| && after[Align(|before|)..] == chunk
  }

  lemma {:induction false} LaidAndAppended(before: seq<byte>, after: seq<byte>, at: nat, chunks: seq<seq<byte>>,
          chunk: seq<byte>)
    requires Laid(before, at, chunks) && Appended(before, after, chunk)
    ensures Laid(after, at, chunks + [chunk])
    decreases chunks
  {
    if chunks == [] {
      assert (chunks + [chunk])[1..] == [];
      assert after[Align(at)..Align(at) + |chunk|] == after[Align(|before|)..];
    } else {
      var next := Align(at) + |chunks[0]|;
      LaidAndAppended(before, after, next, chunks[1..], chunk);
      assert (chunks + [chunk])[1..] == chunks[1..] + [chunk];
      assert after[Align(at)..next] == before[Align(at)..next];
    }
  }

  lemma AlignedSum(at: nat, length: nat)
    ensures Align(Align(at) + length) == Align(at) + Align(length)
  {
  }

  ghost function EndOf(at: nat, chunks: seq<seq<byte>>): nat
    decreases chunks
  {
    if chunks == [] then at else EndOf(Align(at) + |chunks[0]|, chunks[1..])
  }

  lemma {:induction false} LaidAfter(payload: seq<byte>, at: nat, chunks: seq<seq<byte>>, more: seq<seq<byte>>)
    requires Laid(payload, at, chunks + more)
    ensures Laid(payload, EndOf(at, chunks), more)
    decreases chunks
  {
    if chunks == [] {
      assert chunks + more == more;
    } else {
      assert (chunks + more)[1..] == chunks[1..] + more;
      LaidAfter(payload, Align(at) + |chunks[0]|, chunks[1..], more);
    }
  }

  lemma {:induction false} LaidBefore(payload: seq<byte>, at: nat, chunks: seq<seq<byte>>, more: seq<seq<byte>>)
    requires Laid(payload, at, chunks + more) && at <= |payload|
    ensures at <= EndOf(at, chunks) <= |payload| && Laid(payload[..EndOf(at, chunks)], at, chunks)
    decreases chunks
  {
    if chunks == [] {
      assert chunks + more == more;
    } else {
      var next := Align(at) + |chunks[0]|;
      assert (chunks + more)[1..] == chunks[1..] + more;
      LaidBefore(payload, next, chunks[1..], more);
      var short := payload[..EndOf(at, chunks)];
      EndOfSum(next, chunks[1..], []);
      SliceOfPrefix(payload, EndOf(at, chunks), Align(at), next);
    }
  }

  lemma SliceOfPrefix<T>(s: seq<T>, n: nat, from: nat, to: nat)
    requires from <= to <= n <= |s|
    ensures s[..n][from..to] == s[from..to]
  {
  }

  lemma {:induction false} LaidTogether(payload: seq<byte>, at: nat, chunks: seq<seq<byte>>, more: seq<seq<byte>>)
    requires at <= EndOf(at, chunks) <= |payload| && Laid(payload[..EndOf(at, chunks)], at, chunks)
    requires Laid(payload, EndOf(at, chunks), more)
    ensures Laid(payload, at, chunks + more)
    decreases chunks
  {
    if chunks == [] {
      assert chunks + more == more;
    } else {
      var next, end := Align(at) + |chunks[0]|, EndOf(at, chunks);
      LaidTogether(payload, next, chunks[1..], more);
      SliceOfPrefix(payload, end, Align(at), next);
      LaidCons(payload, at, chunks[0], chunks[1..] + more);
      assert [chunks[0]] + (chunks[1..] + more) == chunks + more;
    }
  }

  lemma {:induction false} LaidCons(payload: seq<byte>, at: nat, chunk: seq<byte>, rest: seq<seq<byte>>)
    requires Align(at) + |chunk| <= |payload| && payload[Align(at)..Align(at) + |chunk|] == chunk
    requires Laid(payload, Align(at) + |chunk|, rest)
    ensures Laid(payload, at, [chunk] + rest)
  {
    assert ([chunk] + rest)[1..] == rest;
  }

  lemma {:induction false} EndOfSum(at: nat, chunks: seq<seq<byte>>, more: seq<seq<byte>>)
    ensures EndOf(at, chunks + more) == EndOf(EndOf(at, chunks), more)
    ensures at <= EndOf(at, chunks)
    decreases chunks
  {
    if chunks == [] {
      assert chunks + more == more;
    } else {
      assert (chunks + more)[1..] == chunks[1..] + more;
      EndOfSum(Align(at) + |chunks[0]|, chunks[1..], more);
    }
  }

  lemma {:induction false} LaidEnd(payload: seq<byte>, at: nat, chunks: seq<seq<byte>>)
    requires Laid(payload, at, chunks)
    ensures EndOf(at, chunks) == |payload|
    decreases chunks
  {
    if chunks != [] { LaidEnd(payload, Align(at) + |chunks[0]|, chunks[1..]); }
  }

  lemma LaidOne(payload: seq<byte>, at: nat, data: seq<byte>)
    ensures Laid(payload, at, [data]) <==> Align(at) + |data| == |payload| && payload[Align(at)..] == data
  {
    assert [data][1..] == [];
    assert Align(at) + |data| == |payload| ==> payload[Align(at)..Align(at) + |data|] == payload[Align(at)..];
  }

  lemma LaidTwo(payload: seq<byte>, at: nat, length: seq<byte>, data: seq<byte>)
    requires |length| == UNIT
    ensures var from := Align(at) + UNIT;
            Laid(payload, at, [length, data]) <==>
              from + |data| == |payload| && payload[Align(at)..from] == length && payload[from..] == data
  {
    var from := Align(at) + UNIT;
    assert Align(from) == from;
    LaidOne(payload, from, data);
    assert [length, data][1..] == [data];
  }

  /** Blocks that the payload holds stand where the reader looks for them. */
  lemma {:induction false} LaidStand(v: View, at: nat, from: nat, to: nat, chunks: seq<seq<byte>>, more: seq<seq<byte>>)
    requires IsReadable(v) && Laid(Payload(v), at, chunks + more)
    requires from == v.headerSize + Align(at) && to == v.headerSize + Align(EndOf(at, chunks))
    ensures Stand(v, from, chunks, to)
    decreases chunks
  {
    if chunks != [] {
      var length := |chunks[0]|;
      LaidFirst(v, at, chunks, more);
      AlignedSum(at, length);
      LaidStand(v, Align(at) + length, from + Align(length), to, chunks[1..], more);
      StandFirst(v, from, chunks, to);
    }
  }

  lemma LaidFirst(v: View, at: nat, chunks: seq<seq<byte>>, more: seq<seq<byte>>)
    requires IsReadable(v) && chunks != [] && Laid(Payload(v), at, chunks + more)
    ensures var from, length := v.headerSize + Align(at), |chunks[0]|;
            IteratorHasRoomFor(v, from, length) && v.bytes[from..from + length] == chunks[0]
    ensures Laid(Payload(v), Align(at) + |chunks[0]|, chunks[1..] + more)
  {
    assert (chunks + more)[1..] == chunks[1..] + more && (chunks + more)[0] == chunks[0];
    PayloadSlice(v, Align(at), Align(at) + |chunks[0]|);
  }

  lemma StandFirst(v: View, at: int, chunks: seq<seq<byte>>, next: int)
    requires IsReadable(v) && chunks != []
    requires IteratorHasRoomFor(v, at, |chunks[0]|) && v.bytes[at..at + |chunks[0]|] == chunks[0]
    requires Stand(v, at + Align(|chunks[0]|), chunks[1..], next)
    ensures Stand(v, at, chunks, next)
  {
  }

  lemma PayloadSlice(v: View, from: nat, to: nat)
    requires IsReadable(v) && from <= to <= |Payload(v)|
    ensures v.bytes[v.headerSize + from..v.headerSize + to] == Payload(v)[from..to]
    ensures IteratorHasRoomFor(v, v.headerSize + from, to - from)
  {
  }

  // ----------------------------------------------------------------------------------------------
  // Main results
  // ----------------------------------------------------------------------------------------------

  function KindsOf(items: seq<Item>): seq<Kind>
    decreases items
  {
    if items == [] then [] else [KindOf(items[0])] + KindsOf(items[1..])
  }

  datatype Readings = Readings(ok: bool, items: seq<Item>, place: Place)

  /** Reads of these kinds in this order, up to the first that fails. */
  function ReadAll(v: View, place: Place, kinds: seq<Kind>): Readings
    requires IsReadable(v)
    decreases kinds
  {
    if kinds == [] then Readings(true, [], place)
    else
      var first := Read(v, place, kinds[0]);
      if first.Failed? then Readings(false, [], first.place)
      else
        var rest := ReadAll(v, first.place, kinds[1..]);
        Readings(rest.ok, [first.item] + rest.items, rest.place)
  }

  predicate AreItems(items: seq<Item>) {
    forall k :: 0 <= k < |items| ==> IsItem(items[k])
  }

  lemma {:induction false} ReadsBack(v: View, place: Place, at: nat, items: seq<Item>)
    requires IsReadable(v) && AreItems(items) && Laid(Payload(v), at, AllChunks(items))
    requires Start(v, place) == v.headerSize + Align(at)
    ensures var r := ReadAll(v, place, KindsOf(items));
            r.ok && r.items == items && Start(v, r.place) == v.headerSize + Align(|Payload(v)|)
    decreases items
  {
    if items != [] {
      var next := EndOf(at, Chunks(items[0]));
      var moved := NextReadsBack(v, place, at, items[0], AllChunks(items[1..]));
      ReadsBack(v, moved, next, items[1..]);
      assert KindsOf(items)[1..] == KindsOf(items[1..]);
    }
  }

  lemma NextReadsBack(v: View, place: Place, at: nat, item: Item, more: seq<seq<byte>>) returns (moved: Place)
    requires IsReadable(v) && IsItem(item) && Laid(Payload(v), at, Chunks(item) + more)
    requires Start(v, place) == v.headerSize + Align(at)
    ensures moved == At(v.headerSize + Align(EndOf(at, Chunks(item))))
    ensures Read(v, place, KindOf(item)) == Success(item, moved)
    ensures Laid(Payload(v), EndOf(at, Chunks(item)), more)
  {
    var from, to := v.headerSize + Align(at), v.headerSize + Align(EndOf(at, Chunks(item)));
    moved := At(to);
    LaidStand(v, at, from, to, Chunks(item), more);
    LaidAfter(Payload(v), at, Chunks(item), more);
    ItemReadsBack(v, place, item, moved);
  }

  lemma ItemReadsBack(v: View, place: Place, item: Item, next: Place)
    requires IsReadable(v) && ItemStands(v, Start(v, place), KindOf(item), item, next)
    ensures Read(v, place, KindOf(item)) == Success(item, next)
  {
    if item.Bool? { ReadBoolAccepts(v, place, item.b, next); }
    else { ReadAccepts(v, place, KindOf(item), item, next); }
  }

  /** What was written is read back in the same order; then every read of positive width fails. */
  lemma WrittenIsReadBack(v: View, items: seq<Item>)
    requires IsReadable(v) && AreItems(items) && Holds(Payload(v), AllChunks(items))
    ensures var r := ReadAll(v, Null, KindsOf(items));
            && r.ok && r.items == items
            && forall kind: Kind :: (kind.KBytes? ==> kind.length > 0) ==> Read(v, r.place, kind).Failed?
  {
    ReadsBack(v, Null, 0, items);
    var place := ReadAll(v, Null, KindsOf(items)).place;
    forall kind: Kind | kind.KBytes? ==> kind.length > 0 ensures Read(v, place, kind).Failed? {
      NothingAtTheEnd(v, place, kind);
    }
  }

  lemma NothingAtTheEnd(v: View, place: Place, kind: Kind)
    requires IsReadable(v) && Start(v, place) >= EndOfPayload(v) && (kind.KBytes? ==> kind.length > 0)
    ensures Read(v, place, kind).Failed?
  {
  }

  /** A Pickle made from data() and size() finds the same header size and the same payload. */
  lemma RebuiltIsTheSame(v: View)
    requires IsReadable(v) && UNIT <= v.headerSize < UINT32_LIMIT
    ensures var w := FromData(v.bytes[..EndOfPayload(v)]);
            w.headerSize == v.headerSize && IsReadable(w) && Payload(w) == Payload(v)
  {
    var data := v.bytes[..EndOfPayload(v)];
    assert data[..UNIT] == v.bytes[..UNIT];
    assert |data| - Decode(data[..UNIT]) == v.headerSize;
  }

  lemma RebuiltReadsBack(v: View, items: seq<Item>)
    requires IsReadable(v) && UNIT <= v.headerSize < UINT32_LIMIT
    requires AreItems(items) && Holds(Payload(v), AllChunks(items))
    ensures var w := FromData(v.bytes[..EndOfPayload(v)]);
            && w.headerSize == v.headerSize && IsReadable(w)
            && ReadAll(w, Null, KindsOf(items)).ok && ReadAll(w, Null, KindsOf(items)).items == items
  {
    RebuiltIsTheSame(v);
    WrittenIsReadBack(FromData(v.bytes[..EndOfPayload(v)]), items);
  }

  /** Exactly the buffers that are used: an aligned header of at least four bytes, and the payload after it. */
  lemma FromDataAccepts(data: seq<byte>)
    requires |data| < UINT32_LIMIT
    ensures IsReadable(FromData(data))
    ensures FromData(data) != REFUSED <==>
              |data| >= UNIT && var rest := |data| - Decode(data[..UNIT]); rest > 0 && rest % UNIT == 0
    ensures FromData(data) != REFUSED ==>
              && FromData(data).bytes == data && FromData(data).headerSize >= UNIT
              && EndOfPayload(FromData(data)) == |data|
  {
    LimitsOf4();
  }

  /**
    Whatever the buffer: bytes that are handed out are bytes of the payload, and the iterator stays behind the
    header.
   */
  lemma ReadsStayInPayload(v: View, place: Place, length: int)
    requires IsReadable(v) && Start(v, place) >= v.headerSize
    ensures var r, from := Take(v, place, length), Start(v, place) - v.headerSize;
            && Start(v, r.place) >= v.headerSize
            && (r.ok <==> 0 <= length && from + length <= |Payload(v)|)
            && (r.ok ==> r.bytes == Payload(v)[from..from + length])
  {
    var from := Start(v, place) - v.headerSize;
    assert IteratorHasRoomFor(v, v.headerSize + from, length) <==> 0 <= length && from + length <= PayloadSize(v);
    if 0 <= length && from + length <= PayloadSize(v) { TakenFromPayload(v, place, from, length); }
  }

  lemma TakenFromPayload(v: View, place: Place, from: nat, length: nat)
    requires IsReadable(v) && Start(v, place) == v.headerSize + from && from + length <= PayloadSize(v)
    ensures Take(v, place, length) ==
              Taken(true, Payload(v)[from..from + length], At(v.headerSize + from + Align(length)))
  {
    PayloadSlice(v, from, from + length);
  }

  /** Without the check in ReadWString, four times a length could wrap round to a size there is room for. */
  lemma WideLengthWraps()
    ensures 0x4000_0000 <= INT_MAX && AsInt(0x4000_0000 * WCHAR_WIDTH) == 0
  {
    LimitsOf4();
    assert 0x4000_0000 * WCHAR_WIDTH == UINT32_LIMIT;
  }

  /** FindNext finds the end of a pickle in any range that starts with it, exactly when all of it is there. */
  lemma FindNextFindsTheEnd(v: View, n: nat)
    requires IsReadable(v) && UNIT <= v.headerSize && n <= |v.bytes|
    ensures FindNext(v.headerSize, v.bytes[..n]) == if EndOfPayload(v) <= n then EndOfPayload(v) else -1
  {
    if UNIT <= n { assert v.bytes[..n][..UNIT] == v.bytes[..UNIT]; }
  }
}
