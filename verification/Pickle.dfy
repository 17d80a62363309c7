/**
  base/pickle.h and base/pickle.cc: the byte layout, and the readers as functions of any buffer. The
  machine is little-endian, with 8-byte long and size_t and 4-byte wchar_t. A pointer into the buffer is
  its offset from header_.
 */
module Pickles {
  type byte = b: int | 0 <= b < 256

  const UNIT: nat := 4            // sizeof(uint32)
  const PAYLOAD_UNIT: nat := 64
  const INT_MAX: int := 0x7fff_ffff
  const UINT32_LIMIT: int := 0x1_0000_0000

  // ----------------------------------------------------------------------------------------------
  // Alignment and fixed-width numbers
  // ----------------------------------------------------------------------------------------------

  /** AlignInt, at the two alignments it is ever given. */
  function AlignInt(i: nat, alignment: nat): (r: nat)
    requires alignment == UNIT || alignment == PAYLOAD_UNIT
    ensures r % alignment == 0 && i <= r < i + alignment
  {
    if alignment == UNIT then Align(i) else i + (PAYLOAD_UNIT - i % PAYLOAD_UNIT) % PAYLOAD_UNIT
  }

  function Align(i: nat): (r: nat)
    ensures r % UNIT == 0 && i <= r < i + UNIT
  {
    i + (UNIT - i % UNIT) % UNIT
  }

  /** 256 to the power `width`. */
  function Limit(width: nat): (r: nat)
    ensures r > 0
  {
    if width == 0 then 1 else 256 * Limit(width - 1)
  }

  function Encode(value: nat, width: nat): (bytes: seq<byte>)
    ensures |bytes| == width
  {
    if width == 0 then [] else [value % 256] + Encode(value / 256, width - 1)
  }

  function Decode(bytes: seq<byte>): (value: nat)
    ensures value < Limit(|bytes|)
  {
    if bytes == [] then 0 else bytes[0] + 256 * Decode(bytes[1..])
  }

  /** Two's complement. */
  function Signed(value: nat, width: nat): int {
    if 2 * value >= Limit(width) then value - Limit(width) else value
  }

  function Unsigned(value: int, width: nat): nat {
    value % Limit(width)
  }

  function EncodeUnits(units: seq<nat>, width: nat): (bytes: seq<byte>)
    ensures |bytes| == |units| * width
  {
    if units == [] then []
    else
      assert |units| * width == width + (|units| - 1) * width;
      Encode(units[0], width) + EncodeUnits(units[1..], width)
  }

  function DecodeUnits(bytes: seq<byte>, count: nat, width: nat): (units: seq<nat>)
    requires |bytes| == count * width
    ensures |units| == count
  {
    if count == 0 then []
    else
      assert count * width == width + (count - 1) * width;
      [Decode(bytes[..width])] + DecodeUnits(bytes[width..], count - 1, width)
  }

  // ----------------------------------------------------------------------------------------------
  // What is written and read
  // ----------------------------------------------------------------------------------------------

  datatype NumberType = Int | Long | Size | UInt16 | UInt32 | Int64 | UInt64

  function Width(t: NumberType): nat {
    match t
    case UInt16 => 2
    case Int => 4
    case UInt32 => 4
    case _ => 8
  }

  predicate IsSigned(t: NumberType) {
    t.Int? || t.Long? || t.Int64?
  }

  const WCHAR_WIDTH: nat := 4
  const CHAR16_WIDTH: nat := 2

  datatype Item =
    | Bool(b: bool)
    | Number(t: NumberType, value: int)
    | String(chars: seq<byte>)
    | WString(wide: seq<nat>)
    | String16(units: seq<nat>)
    | Data(bytes: seq<byte>)
    | Bytes(raw: seq<byte>)

  /** Which Read method, and for ReadBytes the length it is given. */
  datatype Kind = KBool | KNumber(t: NumberType) | KString | KWString | KString16 | KData | KBytes(length: int)

  function KindOf(item: Item): Kind {
    match item
    case Bool(_) => KBool
    case Number(t, _) => KNumber(t)
    case String(_) => KString
    case WString(_) => KWString
    case String16(_) => KString16
    case Data(_) => KData
    case Bytes(raw) => KBytes(|raw|)
  }

  predicate IsNumber(t: NumberType, value: int) {
    var limit := Limit(Width(t));
    if IsSigned(t) then 0 <= 2 * value + limit < 2 * limit else 0 <= value < limit
  }

  predicate AreUnits(units: seq<nat>, width: nat) {
    && |units| * width <= INT_MAX
    && forall k :: 0 <= k < |units| ==> units[k] < Limit(width)
  }

  /** A value of its C++ type, of a length in bytes that an int can hold. */
  predicate IsItem(item: Item) {
    match item
    case Bool(_) => true
    case Number(t, value) => IsNumber(t, value)
    case String(chars) => |chars| <= INT_MAX
    case WString(wide) => AreUnits(wide, WCHAR_WIDTH)
    case String16(units) => AreUnits(units, CHAR16_WIDTH)
    case Data(bytes) => |bytes| <= INT_MAX
    case Bytes(raw) => |raw| <= INT_MAX
  }

  /** The blocks of bytes that writing the item passes to WriteBytes, one after the other. */
  function Chunks(item: Item): seq<seq<byte>> {
    match item
    case Bool(b) => [Encode(if b then 1 else 0, 4)]
    case Number(t, value) => [Encode(Unsigned(value, Width(t)), Width(t))]
    case String(chars) => [Encode(|chars|, 4), chars]
    case WString(wide) => [Encode(|wide|, 4), EncodeUnits(wide, WCHAR_WIDTH)]
    case String16(units) => [Encode(|units|, 4), EncodeUnits(units, CHAR16_WIDTH)]
    case Data(bytes) => [Encode(|bytes|, 4), bytes]
    case Bytes(raw) => [raw]
  }

  function AllChunks(items: seq<Item>): seq<seq<byte>>
    decreases items
  {
    if items == [] then [] else Chunks(items[0]) + AllChunks(items[1..])
  }

  // ----------------------------------------------------------------------------------------------
  // Readers
  // ----------------------------------------------------------------------------------------------

  /** What a reader sees: the header size, and the bytes from header_ on. A refused buffer is none. */
  datatype View = View(headerSize: nat, bytes: seq<byte>)

  const REFUSED: View := View(0, [])

  function PayloadSize(v: View): (n: nat) {
    if |v.bytes| < UNIT then 0 else Decode(v.bytes[..UNIT])
  }

  function EndOfPayload(v: View): nat {
    v.headerSize + PayloadSize(v)
  }

  ghost predicate IsReadable(v: View) {
    EndOfPayload(v) <= |v.bytes| && v.headerSize % UNIT == 0
  }

  ghost function Payload(v: View): seq<byte>
    requires IsReadable(v)
  {
    v.bytes[v.headerSize..EndOfPayload(v)]
  }

  /** The constructor from a const block of data: the header size is what the payload leaves, modulo 2^32. */
  function FromData(data: seq<byte>): View {
    var rest := if |data| >= UNIT then (|data| - Decode(data[..UNIT])) % UINT32_LIMIT else 0;
    if rest > |data| || rest != Align(rest) || rest == 0 then REFUSED else View(rest, data)
  }

  /** FindNext: where the pickle at the start of the range ends, or -1 if not all of it is there. */
  function FindNext(headerSize: nat, range: seq<byte>): int {
    if |range| < UNIT then -1
    else
      var end := headerSize + Decode(range[..UNIT]);
      if end > |range| then -1 else end
  }

  /** The iterator: null before the first read. */
  datatype Place = Null | At(offset: int)

  function Start(v: View, place: Place): int {
    if place.Null? then v.headerSize else place.offset
  }

  predicate IteratorHasRoomFor(v: View, at: int, length: int) {
    length >= 0 && 0 <= at <= EndOfPayload(v) && at + length <= EndOfPayload(v)
  }

  /** A size_t passed as an int. */
  function AsInt(size: nat): int {
    Signed(size % UINT32_LIMIT, 4)
  }

  datatype Taken = Taken(ok: bool, bytes: seq<byte>, place: Place)

  /** ReadBytes: the iterator leaves null even when the read fails. */
  function Take(v: View, place: Place, length: int): (r: Taken)
    requires IsReadable(v)
    ensures r.ok ==> |r.bytes| == length
  {
    var at := Start(v, place);
    if IteratorHasRoomFor(v, at, length) then Taken(true, v.bytes[at..at + length], At(at + Align(length)))
    else Taken(false, [], At(at))
  }

  datatype Length = Length(ok: bool, value: int, place: Place)

  function ReadLength(v: View, place: Place): (r: Length)
    requires IsReadable(v)
    ensures r.ok ==> 0 <= r.value <= INT_MAX
  {
    var taken := Take(v, place, 4);
    if taken.ok then
      LimitsOf4();
      var value := Signed(Decode(taken.bytes), 4);
      Length(value >= 0, value, taken.place)
    else Length(false, 0, taken.place)
  }

  lemma LimitsOf4()
    ensures Limit(4) == UINT32_LIMIT
  {
    assert Limit(1) == 256 && Limit(2) == 65536 && Limit(3) == 16777216;
  }

  datatype Reading = Failed(place: Place) | Success(item: Item, place: Place)

  /**
    A length and that many units. Only ReadWString asks whether the size in bytes overflows; for units
    of two bytes a size that does is a negative int, for which there is never room.
   */
  function TakeUnits(v: View, place: Place, width: nat): (r: (Length, Taken))
    requires IsReadable(v) && (width <= CHAR16_WIDTH || width == WCHAR_WIDTH)
    ensures r.1.ok ==> r.0.ok && 0 <= r.0.value && |r.1.bytes| == r.0.value * width <= INT_MAX
  {
    var length := ReadLength(v, place);
    if !length.ok || (width == WCHAR_WIDTH && length.value > INT_MAX / WCHAR_WIDTH)
    then (length, Taken(false, [], length.place))
    else
      AsIntOfSmall(length.value * width);
      (length, Take(v, length.place, AsInt(length.value * width)))
  }

  lemma AsIntOfSmall(size: nat)
    requires size < UINT32_LIMIT
    ensures AsInt(size) >= 0 ==> AsInt(size) == size <= INT_MAX
  {
    LimitsOf4();
  }

  function Read(v: View, place: Place, kind: Kind): Reading
    requires IsReadable(v)
  {
    match kind
    case KBool =>
      var r := Take(v, place, 4);
      if r.ok then Success(Bool(Decode(r.bytes) != 0), r.place) else Failed(r.place)
    case KNumber(t) =>
      var r := Take(v, place, Width(t));
      if r.ok then
        var value := Decode(r.bytes);
        Success(Number(t, if IsSigned(t) then Signed(value, Width(t)) else value), r.place)
      else Failed(r.place)
    case KString =>
      var r := TakeUnits(v, place, 1);
      if r.1.ok then Success(String(r.1.bytes), r.1.place) else Failed(r.1.place)
    case KWString =>
      var r := TakeUnits(v, place, WCHAR_WIDTH);
      if r.1.ok then
        Success(WString(DecodeUnits(r.1.bytes, r.0.value, WCHAR_WIDTH)), r.1.place)
      else Failed(r.1.place)
    case KString16 =>
      var r := TakeUnits(v, place, CHAR16_WIDTH);
      if r.1.ok then
        Success(String16(DecodeUnits(r.1.bytes, r.0.value, CHAR16_WIDTH)), r.1.place)
      else Failed(r.1.place)
    case KData =>
      var r := TakeUnits(v, place, 1);
      if r.1.ok then Success(Data(r.1.bytes), r.1.place) else Failed(r.1.place)
    case KBytes(length) =>
      var r := Take(v, place, length);
      if r.ok then Success(Bytes(r.bytes), r.place) else Failed(r.place)
  }
}
