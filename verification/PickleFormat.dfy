/** The format that base/pickle.cc writes, in plain numbers: ranges, widths, byte order and alignment. */
module PickleFormat {
  import opened Pickles

  lemma LimitsAre()
    ensures Limit(2) == 0x1_0000 && Limit(4) == 0x1_0000_0000 && Limit(8) == 0x1_0000_0000_0000_0000
  {
    assert Limit(1) == 0x100 && Limit(2) == 0x1_0000 && Limit(3) == 0x100_0000;
    LimitsOf4();
    assert Limit(5) == 0x100_0000_0000 && Limit(6) == 0x1_0000_0000_0000 && Limit(7) == 0x100_0000_0000_0000;
  }

  /** The range of each number type. */
  lemma NumbersAre(v: int)
    ensures IsNumber(Int, v) <==> -0x8000_0000 <= v < 0x8000_0000
    ensures IsNumber(Long, v) <==> -0x8000_0000_0000_0000 <= v < 0x8000_0000_0000_0000
    ensures IsNumber(Int64, v) <==> -0x8000_0000_0000_0000 <= v < 0x8000_0000_0000_0000
    ensures IsNumber(Size, v) <==> 0 <= v < 0x1_0000_0000_0000_0000
    ensures IsNumber(UInt64, v) <==> 0 <= v < 0x1_0000_0000_0000_0000
    ensures IsNumber(UInt16, v) <==> 0 <= v < 0x1_0000
    ensures IsNumber(UInt32, v) <==> 0 <= v < 0x1_0000_0000
  {
    LimitsAre();
  }

  /** The bytes of a number from the lowest to the highest, in two's complement, in as many as its type has. */
  lemma NumberIsWritten(t: NumberType, value: int, k: nat)
    requires IsNumber(t, value)
    requires k < if t.UInt16? then 2 else if t.Int? || t.UInt32? then 4 else 8
    ensures var bytes := Chunks(Number(t, value))[0];
            && |bytes| == (if t.UInt16? then 2 else if t.Int? || t.UInt32? then 4 else 8)
            && bytes[k] == value / Limit(k) % 256
  {
    LimitsAre();
    var width := Width(t);
    EncodedByte(Unsigned(value, width), width, k);
    LimitSplit(k, width);
    WrapsBelow(value, Limit(width), Limit(k), Limit(width - k - 1));
  }

  lemma {:induction false} LimitSplit(k: nat, width: nat)
    requires k < width
    ensures Limit(width) == Limit(k) * (256 * Limit(width - k - 1))
    decreases k
  {
    if k > 0 { LimitSplit(k - 1, width - 1); }
  }

  /** What is above a byte does not change it. */
  lemma WrapsBelow(value: int, limit: nat, low: nat, high: nat)
    requires low > 0 && high > 0 && limit == low * (256 * high)
    ensures value % limit / low % 256 == value / low % 256
  {
    var q, r := value / limit, value % limit;
    Reordered(q, low, high);
    assert value == q * limit + r;
    DivideSum(q * (256 * high), r, low);
    Reordered(q, 1, high);
    ModSum(q * high, r / low);
  }

  lemma Reordered(q: int, low: nat, high: nat)
    ensures q * (low * (256 * high)) == (q * (256 * high)) * low
    ensures q * (256 * high) == (q * high) * 256
  {
  }

  lemma DivideSum(a: int, r: int, low: nat)
    requires low > 0
    ensures (a * low + r) / low == a + r / low
  {
    var q := r / low;
    assert a * low + r == (a + q) * low + r % low;
    DivideExactly(a + q, r % low, low);
  }

  lemma DivideExactly(q: int, rest: nat, low: nat)
    requires rest < low
    ensures (q * low + rest) / low == q
  {
    var n := q * low + rest;
    var d := n / low - q;
    assert n == (n / low) * low + n % low;
    assert d * low == rest - n % low;
    ProductIsFar(d, low);
  }

  lemma ProductIsFar(d: int, low: int)
    requires low >= 0
    ensures d >= 1 ==> d * low >= low
    ensures d <= -1 ==> d * low <= -low
  {
  }

  lemma ModSum(a: int, b: int)
    ensures (a * 256 + b) % 256 == b % 256
  {
  }

  lemma {:induction false} EncodedByte(value: nat, width: nat, k: nat)
    requires k < width
    ensures Encode(value, width)[k] == value / Limit(k) % 256
    decreases k
  {
    if k > 0 {
      EncodedByte(value / 256, width - 1, k - 1);
      DivideTwice(value, Limit(k - 1));
    }
  }

  lemma DivideTwice(value: nat, limit: nat)
    requires limit > 0
    ensures value / 256 / limit == value / (256 * limit)
  {
    var q := value / 256 / limit;
    assert value / 256 == q * limit + (value / 256) % limit;
    assert value == 256 * (value / 256) + value % 256;
    assert value == q * (256 * limit) + (256 * ((value / 256) % limit) + value % 256) by {
      assert 256 * (q * limit) == q * (256 * limit);
    }
    assert (value / 256) % limit + 1 <= limit;
    DivideExactly(q, 256 * ((value / 256) % limit) + value % 256, 256 * limit);
  }

  /** Blocks start at multiples of four: the next one that is not below. */
  lemma AlignmentIsFour(n: nat)
    ensures n <= Align(n) < n + 4 && Align(n) % 4 == 0
  {
  }

  /** A length in four bytes in front, two bytes for each unit of a string16, four for each of a wstring. */
  lemma TextIsWritten(units: seq<nat>, k: nat)
    requires k < |units|
    ensures var text := Chunks(String16(units));
            |text| == 2 && text[0] == Encode(|units|, 4) && 2 * k + 2 <= |text[1]| &&
            text[1][2 * k..2 * k + 2] == Encode(units[k], 2)
    ensures var text := Chunks(WString(units));
            |text| == 2 && text[0] == Encode(|units|, 4) && 4 * k + 4 <= |text[1]| &&
            text[1][4 * k..4 * k + 4] == Encode(units[k], 4)
  {
    UnitIsAt(units, 2, k);
    UnitIsAt(units, 4, k);
  }

  lemma {:induction false} UnitIsAt(units: seq<nat>, width: nat, k: nat)
    requires k < |units|
    ensures width * k + width <= |EncodeUnits(units, width)|
    ensures EncodeUnits(units, width)[width * k..width * k + width] == Encode(units[k], width)
    decreases units
  {
    var first, rest := Encode(units[0], width), EncodeUnits(units[1..], width);
    assert EncodeUnits(units, width) == first + rest;
    if k > 0 {
      UnitIsAt(units[1..], width, k - 1);
      OneMoreTime(width, k);
      SliceBehind(first, rest, width * (k - 1), width * (k - 1) + width);
    }
  }

  lemma OneMoreTime(width: nat, k: nat)
    requires k > 0
    ensures width * k == width + width * (k - 1)
  {
  }

  lemma SliceBehind<T>(a: seq<T>, b: seq<T>, from: nat, to: nat)
    requires from <= to <= |b|
    ensures (a + b)[|a| + from..|a| + to] == b[from..to]
  {
  }

  lemma {:induction false} ZeroIs(width: nat)
    ensures Encode(0, width) == seq(width, _ => 0)
  {
    if width > 0 {
      ZeroIs(width - 1);
      assert [0] + seq(width - 1, _ => 0 as byte) == seq(width, _ => 0 as byte);
    }
  }

  /** A bool is the int 1 or 0. */
  lemma BoolIsWritten(b: bool)
    ensures Chunks(Bool(b)) == [if b then [1, 0, 0, 0] else [0, 0, 0, 0]]
  {
    ZeroIs(3);
    ZeroIs(4);
    assert Encode(1, 4) == [1] + Encode(0, 3) == [1, 0, 0, 0];
    assert Encode(0, 4) == [0, 0, 0, 0];
  }

  /** The capacity of a buffer grows in units of 64. */
  lemma CapacityUnitIs64(n: nat)
    ensures n <= AlignInt(n, PAYLOAD_UNIT) < n + 64 && AlignInt(n, PAYLOAD_UNIT) % 64 == 0
  {
  }

  /** A read that fails leaves the iterator where it is; a null iterator is at the start of the payload then. */
  lemma FailedReadStays(v: View, place: Place, length: int)
    requires IsReadable(v) && !Take(v, place, length).ok
    ensures Take(v, place, length).place == if place == Null then At(v.headerSize) else place
  {
  }
}
