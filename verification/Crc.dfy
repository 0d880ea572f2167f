// The Modbus RTU checksum (connectors/modbus/rtu.go): CRC-16 with the reflected polynomial 0xa001, low byte
// first on the wire. Error detection is proved on the bits in transmission order, least significant first.
module Crc {

  type byte = bv8

  const INIT: bv16 := 0xffff

  // Addition of polynomials over two elements.
  function Add(x: bv16, y: bv16): bv16 { x ^ y }

  // One turn of the inner loop.
  function Shift(c: bv16): bv16 {
    if c & 1 != 0 then (c >> 1) ^ 0xa001 else c >> 1
  }

  function Low(w: bv16): bool { w & 1 != 0 }

  function Half(w: bv16): bv16 { w >> 1 }

  function Word(lo: byte, hi: byte): bv16 { (lo as bv16) | ((hi as bv16) << 8) }

  function Wide(b: byte): bv16 { b as bv16 }

  function Shifts(c: bv16, k: nat): bv16
    decreases k
  {
    if k == 0 then c else Shifts(Shift(c), k - 1)
  }

  function Absorb(c: bv16, b: byte): bv16 { Shifts(Add(c, Wide(b)), 8) }

  // The register after `data`, started from `c`.
  function Register(c: bv16, data: seq<byte>): bv16
    decreases |data|
  {
    if data == [] then c else Register(Absorb(c, data[0]), data[1..])
  }

  function Crc16(data: seq<byte>): bv16 { Register(INIT, data) }

  function LowByte(c: bv16): byte { (c & 0xff) as byte }

  function HighByte(c: bv16): byte { (c >> 8) as byte }

  function AppendCrc(frame: seq<byte>): seq<byte> {
    frame + [LowByte(Crc16(frame)), HighByte(Crc16(frame))]
  }

  predicate ValidCrc(frame: seq<byte>) {
    |frame| >= 3 && Crc16(frame[..|frame| - 2]) == Word(frame[|frame| - 2], frame[|frame| - 1])
  }

  // crc16 as written: two nested loops over one 16-bit register.
  method ComputeCrc16(data: seq<byte>) returns (crc: bv16)
    ensures crc == Crc16(data)
  {
    hide Shift, Add;
    crc := 0xffff;
    assert data[0..] == data;
    for i := 0 to |data|
      invariant Register(crc, data[i..]) == Crc16(data)
    {
      assert data[i..][1..] == data[i + 1..];
      crc := ShiftByte(crc, data[i]);
    }
  }

  method ShiftByte(start: bv16, b: byte) returns (crc: bv16)
    ensures crc == Absorb(start, b)
  {
    hide Shifts;
    crc := start ^ (b as bv16);
    crc := EightShifts(crc);
  }

  method EightShifts(c: bv16) returns (crc: bv16)
    ensures crc == Shifts(c, 8)
  {
    crc := c;
    for k := 0 to 8
      invariant Shifts(crc, 8 - k) == Shifts(c, 8)
    {
      hide Shift;
      crc := OneShift(crc);
    }
  }

  method OneShift(c: bv16) returns (crc: bv16)
    ensures crc == Shift(c)
  {
    if c & 1 != 0 { crc := (c >> 1) ^ 0xa001; } else { crc := c >> 1; }
  }

  // ----- facts about single words -----------------------------------------------------------------------

  // The laws of addition, and how it meets the shift; everything below uses words only through these.
  lemma AddLaws(x: bv16, y: bv16, z: bv16)
    ensures Add(x, y) == 0 <==> x == y
    ensures Add(x, 0) == x && Add(0, x) == x && Add(x, x) == 0
    ensures Add(Add(x, y), z) == Add(x, Add(y, z)) && Add(x, y) == Add(y, x)
  {
    hide Add;
    AddZero(x, y);
    AddAssoc(x, y, z);
    AddComm(x, y);
  }

  lemma AddZero(x: bv16, y: bv16)
    ensures Add(x, y) == 0 <==> x == y
    ensures Add(x, 0) == x && Add(0, x) == x && Add(x, x) == 0
  {
    XorZero(x, y);
  }

  lemma AddAssoc(x: bv16, y: bv16, z: bv16)
    ensures Add(Add(x, y), z) == Add(x, Add(y, z))
  {
    XorMove(x, y, z);
  }

  lemma AddComm(x: bv16, y: bv16)
    ensures Add(x, y) == Add(y, x)
  {
  }

  lemma XorZero(x: bv16, y: bv16)
    ensures x ^ y == 0 <==> x == y
    ensures x ^ 0 == x && 0 ^ x == x && x ^ x == 0
  {
  }

  lemma ShiftZero(x: bv16)
    ensures Shift(x) == 0 <==> x == 0
  {
  }

  lemma XorParts(x: bv16, y: bv16)
    ensures (x ^ y) & 1 == (x & 1) ^ (y & 1)
    ensures (x ^ y) >> 1 == (x >> 1) ^ (y >> 1)
    ensures x & 1 == 0 || x & 1 == 1
    ensures y & 1 == 0 || y & 1 == 1
  {
  }

  lemma XorMove(a: bv16, b: bv16, p: bv16)
    ensures (a ^ p) ^ (b ^ p) == a ^ b && (a ^ b) ^ p == (a ^ p) ^ b && (a ^ b) ^ p == a ^ (b ^ p)
  {
  }

  // The shift is linear ...
  lemma ShiftLinear(x: bv16, y: bv16)
    ensures Shift(Add(x, y)) == Add(Shift(x), Shift(y))
  {
    XorParts(x, y);
    XorMove(x >> 1, y >> 1, 0xa001);
  }

  function Unshift(c: bv16): bv16 {
    if c & 0x8000 != 0 then ((c ^ 0xa001) << 1) | 1 else c << 1
  }

  // ... and bijective on 16-bit states.
  lemma ShiftBijective(x: bv16)
    ensures Unshift(Shift(x)) == x && Shift(Unshift(x)) == x
  {
    UnshiftOdd(x);
    UnshiftEven(x);
    ShiftHigh(x);
    ShiftLow(x);
  }

  lemma UnshiftOdd(x: bv16)
    ensures x & 1 != 0 ==> ((x >> 1) ^ 0xa001) & 0x8000 != 0 && ((((x >> 1) ^ 0xa001) ^ 0xa001) << 1) | 1 == x
  {
  }

  lemma UnshiftEven(x: bv16)
    ensures (x >> 1) & 0x8000 == 0 && (x & 1 == 0 ==> (x >> 1) << 1 == x)
  {
  }

  lemma ShiftHigh(x: bv16)
    ensures x & 0x8000 != 0 ==>
              (((x ^ 0xa001) << 1) | 1) & 1 != 0 && ((((x ^ 0xa001) << 1) | 1) >> 1) ^ 0xa001 == x
  {
  }

  lemma ShiftLow(x: bv16)
    ensures (x << 1) & 1 == 0 && (x & 0x8000 == 0 ==> (x << 1) >> 1 == x)
  {
  }

  lemma {:induction false} ShiftsLinear(x: bv16, y: bv16, k: nat)
    ensures Shifts(Add(x, y), k) == Add(Shifts(x, k), Shifts(y, k))
    decreases k
  {
    hide Shift, Add;
    if k > 0 {
      ShiftLinear(x, y);
      ShiftsLinear(Shift(x), Shift(y), k - 1);
    }
  }

  lemma {:induction false} ShiftsZero(x: bv16, k: nat)
    ensures Shifts(x, k) == 0 <==> x == 0
    decreases k
  {
    hide Shift;
    if k > 0 {
      ShiftZero(x);
      ShiftsZero(Shift(x), k - 1);
    }
  }

  // ----- byte register and bit register agree -----------------------------------------------------------

  function Bit(b: bool): bv16 { if b then 1 else 0 }

  function Feed(c: bv16, bit: bool): bv16 { Shift(Add(c, Bit(bit))) }

  function FeedBits(c: bv16, bits: seq<bool>): bv16
    decreases |bits|
  {
    if bits == [] then c else FeedBits(Feed(c, bits[0]), bits[1..])
  }

  function LowBits(w: bv16, k: nat): (bits: seq<bool>)
    ensures |bits| == k
    decreases k
  {
    if k == 0 then [] else [Low(w)] + LowBits(Half(w), k - 1)
  }

  function Drop(w: bv16, k: nat): bv16
    decreases k
  {
    if k == 0 then w else Drop(Half(w), k - 1)
  }

  function FrameBits(f: seq<byte>): (bits: seq<bool>)
    ensures |bits| == 8 * |f|
    decreases |f|
  {
    if f == [] then [] else LowBits(Wide(f[0]), 8) + FrameBits(f[1..])
  }

  lemma SplitLow(w: bv16)
    ensures w == Add(Bit(Low(w)), Half(w) << 1) && Shift(Half(w) << 1) == Half(w)
  {
    ShiftLow(w >> 1);
  }

  lemma ShiftTakesLow(c: bv16, w: bv16)
    ensures Shift(Add(c, w)) == Add(Feed(c, Low(w)), Half(w))
  {
    SplitLow(w);
    var b, h := Bit(Low(w)), Half(w) << 1;
    AddLaws(c, b, h);
    ShiftLinear(Add(c, b), h);
    hide Shift, Add;
  }

  // Adding a word and shifting k times is feeding its k low bits one at a time.
  lemma {:induction false} ShiftsFeed(c: bv16, w: bv16, k: nat)
    ensures Shifts(Add(c, w), k) == Add(FeedBits(c, LowBits(w, k)), Drop(w, k))
    decreases k
  {
    hide Shift, Add, Feed, Half, Low;
    if k > 0 {
      ShiftTakesLow(c, w);
      ShiftsFeed(Feed(c, Low(w)), Half(w), k - 1);
      assert LowBits(w, k)[1..] == LowBits(Half(w), k - 1);
    }
  }

  lemma ByteDropped(b: byte)
    ensures Drop(Wide(b), 8) == 0
  {
    assert ((((((((b as bv16) >> 1) >> 1) >> 1) >> 1) >> 1) >> 1) >> 1) >> 1 == 0;
  }

  lemma AbsorbFeeds(c: bv16, b: byte)
    ensures Absorb(c, b) == FeedBits(c, LowBits(Wide(b), 8))
  {
    hide Shift, Shifts, Add, Feed, FeedBits, LowBits, Drop, Wide;
    ShiftsFeed(c, Wide(b), 8);
    ByteDropped(b);
    AddLaws(FeedBits(c, LowBits(Wide(b), 8)), 0, 0);
  }

  lemma {:induction false} FeedConcat(c: bv16, a: seq<bool>, b: seq<bool>)
    ensures FeedBits(c, a + b) == FeedBits(FeedBits(c, a), b)
    decreases |a|
  {
    hide Feed;
    if a == [] {
      assert a + b == b;
    } else {
      FeedConcat(Feed(c, a[0]), a[1..], b);
      assert (a + b)[1..] == a[1..] + b;
    }
  }

  lemma {:induction false} RegisterFeeds(c: bv16, f: seq<byte>)
    ensures Register(c, f) == FeedBits(c, FrameBits(f))
    decreases |f|
  {
    hide Absorb, FeedBits, LowBits;
    if f == [] {
      FeedNone(c);
    } else {
      AbsorbFeeds(c, f[0]);
      RegisterFeeds(Absorb(c, f[0]), f[1..]);
      FeedConcat(c, LowBits(Wide(f[0]), 8), FrameBits(f[1..]));
    }
  }

  lemma FeedNone(c: bv16)
    ensures FeedBits(c, []) == c
  {
  }

  lemma {:induction false} RegisterConcat(c: bv16, a: seq<byte>, b: seq<byte>)
    ensures Register(c, a + b) == Register(Register(c, a), b)
    decreases |a|
  {
    hide Absorb;
    if a == [] {
      assert a + b == b;
    } else {
      RegisterConcat(Absorb(c, a[0]), a[1..], b);
      assert (a + b)[1..] == a[1..] + b;
    }
  }

  // ----- the register after a whole frame is zero exactly when the frame is valid -------------------------

  lemma ShiftEven(w: bv16)
    ensures !Low(w) ==> Shift(w) == Half(w)
  {
  }

  // While the low bits are clear, shifting only moves the word down.
  lemma HighWord(hi: byte)
    ensures Shifts(Wide(hi) << 8, 8) == Wide(hi)
  {
    var w0 := Wide(hi) << 8;
    var w1 := Half(w0);
    var w2 := Half(w1);
    var w3 := Half(w2);
    var w4 := Half(w3);
    var w5 := Half(w4);
    var w6 := Half(w5);
    var w7 := Half(w6);
    assert !Low(w0) && !Low(w1) && !Low(w2) && !Low(w3) && !Low(w4) && !Low(w5) && !Low(w6) && !Low(w7);
    assert Half(w7) == Wide(hi);
    ShiftEven(w0);
    ShiftEven(w1);
    ShiftEven(w2);
    ShiftEven(w3);
    ShiftEven(w4);
    ShiftEven(w5);
    ShiftEven(w6);
    ShiftEven(w7);
    hide Shift, Half, Low, Wide;
  }

  lemma WordIsSum(lo: byte, hi: byte)
    ensures Word(lo, hi) == Add(Wide(lo), Wide(hi) << 8)
  {
  }

  // Absorbing two bytes into c is adding the word they form and shifting sixteen times.
  lemma TwoBytes(c: bv16, lo: byte, hi: byte)
    ensures Absorb(Absorb(c, lo), hi) == Shifts(Shifts(Add(c, Word(lo, hi)), 8), 8)
  {
    hide Shift, Shifts, Add, Wide, Word;
    var l, h := Wide(lo), Wide(hi) << 8;
    WordIsSum(lo, hi);
    HighWord(hi);
    ShiftsLinear(Add(c, l), h, 8);
    AddLaws(c, l, h);
  }

  lemma TwoBytesZero(c: bv16, lo: byte, hi: byte)
    ensures Register(c, [lo, hi]) == 0 <==> c == Word(lo, hi)
  {
    hide Absorb, Shifts, Add, Word;
    assert [lo, hi][1..] == [hi];
    assert Register(c, [lo, hi]) == Absorb(Absorb(c, lo), hi) by {
      assert [hi][1..] == [];
      assert Register(Absorb(c, lo), [hi]) == Absorb(Absorb(c, lo), hi);
    }
    var w := Word(lo, hi);
    TwoBytes(c, lo, hi);
    ShiftsZero(Shifts(Add(c, w), 8), 8);
    ShiftsZero(Add(c, w), 8);
    AddLaws(c, w, 0);
  }

  lemma ValidIffZero(f: seq<byte>)
    ensures ValidCrc(f) <==> |f| >= 3 && Crc16(f) == 0
  {
    hide Register, Word;
    if |f| >= 3 {
      var p, lo, hi := f[..|f| - 2], f[|f| - 2], f[|f| - 1];
      assert f == p + [lo, hi];
      RegisterConcat(INIT, p, [lo, hi]);
      TwoBytesZero(Crc16(p), lo, hi);
    }
  }

  lemma WordOfHalves(c: bv16)
    ensures c == Word(LowByte(c), HighByte(c))
  {
  }

  // A frame the sender built passes the receiver's test, unless it carries no data at all.
  lemma AppendedIsValid(frame: seq<byte>)
    ensures Crc16(AppendCrc(frame)) == 0
    ensures ValidCrc(AppendCrc(frame)) <==> frame != []
  {
    hide Register, Word, LowByte, HighByte, ValidCrc;
    var c := Crc16(frame);
    WordOfHalves(c);
    RegisterConcat(INIT, frame, [LowByte(c), HighByte(c)]);
    TwoBytesZero(c, LowByte(c), HighByte(c));
    ValidIffZero(AppendCrc(frame));
  }

  lemma AddCancels(x: bv16, y: bv16, z: bv16)
    ensures Add(x, z) == Add(y, z) <==> x == y
  {
    hide Add;
    AddLaws(x, z, z);
    AddLaws(y, z, z);
    AddLaws(z, z, 0);
  }

  lemma {:induction false} ShiftsInjective(x: bv16, y: bv16, k: nat)
    ensures Shifts(x, k) == Shifts(y, k) <==> x == y
    decreases k
  {
    hide Shift, Unshift;
    if k > 0 {
      ShiftsInjective(Shift(x), Shift(y), k - 1);
      ShiftBijective(x);
      ShiftBijective(y);
    }
  }

  // Different registers stay different whatever follows.
  lemma {:induction false} RegisterInjective(c: bv16, d: bv16, data: seq<byte>)
    ensures Register(c, data) == Register(d, data) <==> c == d
    decreases |data|
  {
    hide Add, Shifts, Wide;
    if data != [] {
      var b := Wide(data[0]);
      RegisterInjective(Absorb(c, data[0]), Absorb(d, data[0]), data[1..]);
      ShiftsInjective(Add(c, b), Add(d, b), 8);
      AddCancels(c, d, b);
    }
  }

  // Eight shifts given one by one.
  lemma AbsorbTo(c: bv16, b: byte, r: seq<bv16>)
    requires |r| == 9 && r[0] == c ^ (b as bv16) && forall i :: 0 <= i < 8 ==> r[i + 1] == Shift(r[i])
    ensures Absorb(c, b) == r[8]
  {
    hide Shift;
    ShiftsTo(r, 8);
  }

  lemma {:induction false} ShiftsTo(r: seq<bv16>, k: nat)
    requires |r| == k + 1 && forall i :: 0 <= i < k ==> r[i + 1] == Shift(r[i])
    ensures Shifts(r[0], k) == r[k]
    decreases k
  {
    hide Shift;
    if k > 0 {
      assert forall i :: 0 <= i < k ==> r[1..][i] == r[i + 1];
      ShiftsTo(r[1..], k - 1);
    }
  }

  // Since the register starts from ones, a leading zero byte always changes the checksum.
  lemma LeadingZeroShows(data: seq<byte>)
    ensures Crc16([0] + data) != Crc16(data)
  {
    hide Register, Absorb;
    AbsorbTo(0xffff, 0, [0xffff, 0xdffe, 0x6fff, 0x97fe, 0x4bff, 0x85fe, 0x42ff, 0x817e, 0x40bf]);
    RegisterFirst(INIT, 0, data);
    RegisterInjective(0x40bf, 0xffff, data);
  }

  lemma RegisterFirst(c: bv16, b: byte, data: seq<byte>)
    ensures Register(c, [b] + data) == Register(Absorb(c, b), data)
  {
    hide Absorb;
    assert ([b] + data)[1..] == data;
  }

  lemma RegisterDone(c: bv16)
    ensures Register(c, []) == c
  {
  }

  lemma KnownStart()
    ensures Register(INIT, [1, 3, 0]) == 0xf020
  {
    hide Register, Absorb;
    var f: seq<byte> := [1, 3, 0];
    AbsorbTo(0xffff, 1, [0xfffe, 0x7fff, 0x9ffe, 0x4fff, 0x87fe, 0x43ff, 0x81fe, 0x40ff, 0x807e]);
    AbsorbTo(0x807e, 3, [0x807d, 0xe03f, 0xd01e, 0x680f, 0x9406, 0x4a03, 0x8500, 0x4280, 0x2140]);
    AbsorbTo(0x2140, 0, [0x2140, 0x10a0, 0x0850, 0x0428, 0x0214, 0x010a, 0x0085, 0xa043, 0xf020]);
    assert f[0..] == [f[0]] + f[1..];
    RegisterFirst(0xffff, f[0], f[1..]);
    assert f[1..] == [f[1]] + f[2..];
    RegisterFirst(0x807e, f[1], f[2..]);
    assert f[2..] == [f[2]] + f[3..];
    RegisterFirst(0x2140, f[2], f[3..]);
    assert f[3..] == [] && f[0..] == f;
    RegisterDone(0xf020);
  }

  lemma KnownEnd()
    ensures Register(0xf020, [0, 0, 10]) == 0xcdc5
  {
    hide Register, Absorb;
    var f: seq<byte> := [0, 0, 10];
    AbsorbTo(0xf020, 0, [0xf020, 0x7810, 0x3c08, 0x1e04, 0x0f02, 0x0781, 0xa3c1, 0xf1e1, 0xd8f1]);
    AbsorbTo(0xd8f1, 0, [0xd8f1, 0xcc79, 0xc63d, 0xc31f, 0xc18e, 0x60c7, 0x9062, 0x4831, 0x8419]);
    AbsorbTo(0x8419, 10, [0x8413, 0xe208, 0x7104, 0x3882, 0x1c41, 0xae21, 0xf711, 0xdb89, 0xcdc5]);
    assert f[0..] == [f[0]] + f[1..];
    RegisterFirst(0xf020, f[0], f[1..]);
    assert f[1..] == [f[1]] + f[2..];
    RegisterFirst(0xd8f1, f[1], f[2..]);
    assert f[2..] == [f[2]] + f[3..];
    RegisterFirst(0x8419, f[2], f[3..]);
    assert f[3..] == [] && f[0..] == f;
    RegisterDone(0xcdc5);
  }

  // The checksum of a known request: read ten holding registers of unit 1 from address 0.
  lemma KnownRequest()
    ensures AppendCrc([1, 3, 0, 0, 0, 10]) == [1, 3, 0, 0, 0, 10, 0xc5, 0xcd]
  {
    hide Register;
    KnownStart();
    KnownEnd();
    RegisterConcat(INIT, [1, 3, 0], [0, 0, 10]);
    var f: seq<byte> := [1, 3, 0, 0, 0, 10];
    assert f == [1, 3, 0] + [0, 0, 10];
  }

  // ----- burst errors -----------------------------------------------------------------------------------

  function Xor(a: seq<bool>, b: seq<bool>): (x: seq<bool>)
    requires |a| == |b|
    ensures |x| == |a|
  {
    seq(|a|, i requires 0 <= i < |a| => a[i] != b[i])
  }

  lemma BitLinear(p: bool, q: bool)
    ensures Bit(p != q) == Add(Bit(p), Bit(q))
  {
  }

  lemma FeedLinear(x: bv16, y: bv16, p: bool, q: bool)
    ensures Feed(Add(x, y), p != q) == Add(Feed(x, p), Feed(y, q))
  {
    hide Shift, Add, Bit;
    BitLinear(p, q);
    var a, b := Bit(p), Bit(q);
    ShiftLinear(Add(x, a), Add(y, b));
    AddLaws(x, y, Add(a, b));
    AddLaws(y, a, b);
    AddLaws(a, y, b);
    AddLaws(x, a, Add(y, b));
  }

  lemma {:induction false} DifferenceFeeds(x: bv16, y: bv16, a: seq<bool>, b: seq<bool>)
    requires |a| == |b|
    ensures Add(FeedBits(x, a), FeedBits(y, b)) == FeedBits(Add(x, y), Xor(a, b))
    decreases |a|
  {
    hide Feed, Add;
    if a != [] {
      FeedLinear(x, y, a[0], b[0]);
      DifferenceFeeds(Feed(x, a[0]), Feed(y, b[0]), a[1..], b[1..]);
      assert Xor(a, b)[1..] == Xor(a[1..], b[1..]);
    }
  }

  // A difference that meets no further difference stays nonzero.
  lemma {:induction false} QuietSurvives(d: bv16, z: seq<bool>)
    requires forall i :: 0 <= i < |z| ==> !z[i]
    ensures FeedBits(d, z) == 0 <==> d == 0
    decreases |z|
  {
    hide Shift, Add;
    if z != [] {
      AddLaws(d, 0, 0);
      ShiftZero(d);
      QuietSurvives(Feed(d, false), z[1..]);
    }
  }

  // m has its low t bits set.
  predicate LowSet(m: bv16, t: nat)
    decreases t
  {
    t == 0 || (Low(m) && LowSet(Half(m), t - 1))
  }

  lemma {:induction false} LowSetLess(m: bv16, t: nat, u: nat)
    requires LowSet(m, t) && u <= t
    ensures LowSet(m, u)
    decreases u
  {
    hide Low, Half;
    if u > 0 { LowSetLess(Half(m), t - 1, u - 1); }
  }

  predicate Inside(c: bv16, m: bv16) { c & !m == 0 }

  predicate TopClear(m: bv16) { m & 0x8000 == 0 }

  // A shift that adds feedback leaves every mask with a clear top bit.
  lemma FeedbackLeaves(d: bv16, m: bv16)
    requires TopClear(m)
    ensures !Inside(Add(Half(d), 0xa001), Half(m))
  {
  }

  lemma HalfInside(d: bv16, m: bv16)
    requires Low(m) && !Low(d) && Inside(Half(d), Half(m))
    ensures Inside(d, m) && Inside(Add(d, 1), m)
  {
  }

  lemma FlipTwice(c: bv16)
    ensures Add(Add(c, 1), 1) == c && Add(c, 0) == c
  {
  }

  lemma FeedParts(c: bv16, bit: bool)
    ensures var d := Add(c, Bit(bit)); Feed(c, bit) == if Low(d) then Add(Half(d), 0xa001) else Half(d)
  {
    hide Shift, Add, Half, Low, Bit;
    ShiftParts(Add(c, Bit(bit)));
  }

  lemma BackOne(c: bv16, bit: bool, m: bv16)
    requires TopClear(m) && Low(m) && Inside(Feed(c, bit), Half(m))
    ensures Inside(c, m)
  {
    hide Feed, Add, Half, Low, Inside, TopClear;
    var d := Add(c, Bit(bit));
    FeedParts(c, bit);
    FlipTwice(c);
    if Low(d) {
      FeedbackLeaves(d, m);
    } else {
      HalfInside(d, m);
    }
  }

  // If the register reaches zero within t bits, it started below 2^t.
  lemma {:induction false} ZeroSoon(c: bv16, bits: seq<bool>, m: bv16)
    requires LowSet(m, |bits|) && TopClear(m) && FeedBits(c, bits) == 0
    ensures Inside(c, m)
    decreases |bits|
  {
    InsideFacts(m);
    hide Feed, Low, Half, Inside, TopClear;
    if bits != [] {
      ZeroSoon(Feed(c, bits[0]), bits[1..], Half(m));
      BackOne(c, bits[0], m);
    }
  }

  lemma InsideFacts(m: bv16)
    ensures Inside(0, m) && TopClear(Half(m))
  {
  }

  lemma FifteenLow()
    ensures LowSet(0x7fff, 15) && TopClear(0x7fff) && !Inside(0xa001, 0x7fff) && Feed(0, true) == 0xa001
    ensures Feed(0, false) == 0
  {
  }

  // Sixteen bits that are not all zero never cancel.
  lemma {:induction false} BurstNonzero(e: seq<bool>)
    requires |e| <= 16 && exists i :: 0 <= i < |e| && e[i]
    ensures FeedBits(0, e) != 0
    decreases |e|
  {
    FifteenLow();
    hide Feed, LowSet, Inside, TopClear;
    if e[0] {
      if FeedBits(0xa001, e[1..]) == 0 {
        LowSetLess(0x7fff, 15, |e| - 1);
        ZeroSoon(0xa001, e[1..], 0x7fff);
      }
    } else {
      var i :| 0 <= i < |e| && e[i];
      assert e[1..][i - 1];
      BurstNonzero(e[1..]);
    }
  }

  // Any two bit strings that differ, but only inside a window of at most 16 bits, leave different registers.
  lemma BurstDetected(c: bv16, a: seq<bool>, e: seq<bool>, e': seq<bool>, z: seq<bool>)
    requires |e| == |e'| <= 16 && e != e'
    ensures FeedBits(c, a + e + z) != FeedBits(c, a + e' + z)
  {
    hide FeedBits, Add;
    FeedConcat(c, a + e, z);
    FeedConcat(c, a + e', z);
    FeedConcat(c, a, e);
    FeedConcat(c, a, e');
    var d := FeedBits(c, a);
    var x, y := FeedBits(d, e), FeedBits(d, e');
    DifferenceFeeds(d, d, e, e');
    AddLaws(d, d, 0);
    var i :| 0 <= i < |e| && e[i] != e'[i];
    assert Xor(e, e')[i];
    BurstNonzero(Xor(e, e'));
    DifferenceFeeds(x, y, z, z);
    QuietSurvives(Add(x, y), Xor(z, z));
    AddLaws(FeedBits(x, z), FeedBits(y, z), 0);
  }

  // Main theorem: a transmitted frame changed inside any 16 consecutive bits, checksum bits included, is
  // rejected.
  lemma BurstRejected(frame: seq<byte>, g: seq<byte>, at: nat, n: nat)
    requires |g| == |AppendCrc(frame)| && n <= 16 && at + n <= 8 * |g|
    requires FrameBits(AppendCrc(frame))[..at] == FrameBits(g)[..at]
    requires FrameBits(AppendCrc(frame))[at + n..] == FrameBits(g)[at + n..]
    requires FrameBits(AppendCrc(frame))[at..at + n] != FrameBits(g)[at..at + n]
    ensures !ValidCrc(g)
  {
    hide AppendCrc, FrameBits, FeedBits, Register, ValidCrc;
    var f := AppendCrc(frame);
    var fb, gb := FrameBits(f), FrameBits(g);
    assert fb == fb[..at] + fb[at..at + n] + fb[at + n..];
    assert gb == fb[..at] + gb[at..at + n] + fb[at + n..];
    BurstDetected(INIT, fb[..at], fb[at..at + n], gb[at..at + n], fb[at + n..]);
    RegisterFeeds(INIT, f);
    RegisterFeeds(INIT, g);
    AppendedIsValid(frame);
    ValidIffZero(g);
  }

  lemma {:induction false} FrameBitsConcat(a: seq<byte>, b: seq<byte>)
    ensures FrameBits(a + b) == FrameBits(a) + FrameBits(b)
    decreases |a|
  {
    hide LowBits, Wide;
    if a == [] {
      assert a + b == b;
    } else {
      FrameBitsConcat(a[1..], b);
      assert (a + b)[1..] == a[1..] + b;
    }
  }

  lemma {:induction false} FrameBitsInjective(a: seq<byte>, b: seq<byte>)
    requires |a| == |b| && FrameBits(a) == FrameBits(b)
    ensures a == b
    decreases |a|
  {
    hide LowBits, Wide;
    if a != [] {
      var x, y := FrameBits(a), FrameBits(b);
      assert x[..8] == LowBits(Wide(a[0]), 8) && y[..8] == LowBits(Wide(b[0]), 8);
      assert x[8..] == FrameBits(a[1..]) && y[8..] == FrameBits(b[1..]);
      ByteFromBits(a[0], b[0]);
      FrameBitsInjective(a[1..], b[1..]);
    }
  }

  lemma ByteFromBits(a: byte, b: byte)
    requires LowBits(Wide(a), 8) == LowBits(Wide(b), 8)
    ensures a == b
  {
    hide Shifts, Add, FeedBits, LowBits, Wide;
    AbsorbFeeds(0, a);
    AbsorbFeeds(0, b);
    var x, y := Wide(a), Wide(b);
    AddLaws(x, 0, 0);
    AddLaws(y, 0, 0);
    ShiftsLinear(x, y, 8);
    AddLaws(Shifts(x, 8), 0, 0);
    ShiftsZero(Add(x, y), 8);
    AddLaws(x, y, 0);
    WideInjective(a, b);
  }

  lemma WideInjective(a: byte, b: byte)
    ensures Wide(a) == Wide(b) <==> a == b
  {
  }

  // In particular any change confined to two adjacent bytes is rejected.
  lemma TwoAdjacentBytesRejected(frame: seq<byte>, g: seq<byte>, i: nat)
    requires |g| == |AppendCrc(frame)| && i + 2 <= |g| && g != AppendCrc(frame)
    requires g[..i] == AppendCrc(frame)[..i] && g[i + 2..] == AppendCrc(frame)[i + 2..]
    ensures !ValidCrc(g)
  {
    hide AppendCrc, FrameBits, ValidCrc;
    var f := AppendCrc(frame);
    var p, z := f[..i], f[i + 2..];
    assert f == p + (f[i..i + 2] + z) && g == p + (g[i..i + 2] + z);
    FrameBitsConcat(p, f[i..i + 2] + z);
    FrameBitsConcat(f[i..i + 2], z);
    FrameBitsConcat(p, g[i..i + 2] + z);
    FrameBitsConcat(g[i..i + 2], z);
    if FrameBits(f[i..i + 2]) == FrameBits(g[i..i + 2]) {
      FrameBitsInjective(f[i..i + 2], g[i..i + 2]);
    }
    var fb, gb := FrameBits(f), FrameBits(g);
    assert fb[..8 * i] == FrameBits(p) && gb[..8 * i] == FrameBits(p);
    assert fb[8 * i..8 * i + 16] == FrameBits(f[i..i + 2]) && gb[8 * i..8 * i + 16] == FrameBits(g[i..i + 2]);
    assert fb[8 * i + 16..] == FrameBits(z) && gb[8 * i + 16..] == FrameBits(z);
    BurstRejected(frame, g, 8 * i, 16);
  }

  // ----- odd numbers of flipped bits --------------------------------------------------------------------

  function Odd(bits: seq<bool>): bool
    decreases |bits|
  {
    if bits == [] then false else bits[0] != Odd(bits[1..])
  }

  function Parity(c: bv16): bool { Odd(LowBits(c, 16)) }

  lemma AddParts(x: bv16, y: bv16)
    ensures Low(Add(x, y)) == (Low(x) != Low(y)) && Half(Add(x, y)) == Add(Half(x), Half(y))
  {
    XorParts(x, y);
  }

  lemma {:induction false} OddLinear(x: bv16, y: bv16, k: nat)
    ensures Odd(LowBits(Add(x, y), k)) == (Odd(LowBits(x, k)) != Odd(LowBits(y, k)))
    decreases k
  {
    hide Add, Low, Half;
    if k > 0 {
      AddParts(x, y);
      OddLinear(Half(x), Half(y), k - 1);
      assert LowBits(x, k)[1..] == LowBits(Half(x), k - 1) && LowBits(y, k)[1..] == LowBits(Half(y), k - 1);
      assert LowBits(Add(x, y), k)[1..] == LowBits(Add(Half(x), Half(y)), k - 1);
    }
  }

  lemma {:induction false} OddOneMore(w: bv16, k: nat)
    ensures Odd(LowBits(w, k + 1)) == (Odd(LowBits(w, k)) != Low(Drop(w, k)))
    decreases k
  {
    hide Low, Half;
    assert LowBits(w, k + 1)[1..] == LowBits(Half(w), k);
    if k == 0 {
      assert LowBits(w, 1) == [Low(w)];
    } else {
      OddOneMore(Half(w), k - 1);
      assert LowBits(w, k)[1..] == LowBits(Half(w), k - 1);
    }
  }

  lemma SixteenDropped(w: bv16)
    ensures !Low(Drop(w, 16))
  {
    var w4 := Half(Half(Half(Half(w))));
    var w8 := Half(Half(Half(Half(w4))));
    var w12 := Half(Half(Half(Half(w8))));
    assert Half(Half(Half(Half(w12)))) == 0;
    hide Half;
    assert Drop(w, 16) == Drop(w4, 12);
    assert Drop(w4, 12) == Drop(w8, 8);
    assert Drop(w8, 8) == Drop(w12, 4);
  }

  lemma ParityHalf(c: bv16)
    ensures Parity(Half(c)) == (Parity(c) != Low(c))
  {
    SixteenDropped(c);
    OddOneMore(c, 16);
    hide Low, Half;
    assert LowBits(c, 17)[1..] == LowBits(Half(c), 16);
  }

  lemma OddCons(w: bv16, half: bv16, k: nat)
    requires half == w >> 1
    ensures Odd(LowBits(w, k + 1)) == (Low(w) != Odd(LowBits(half, k)))
  {
    assert LowBits(w, k + 1)[1..] == LowBits(half, k);
  }

  lemma {:induction false} OddZero(k: nat)
    ensures !Odd(LowBits(0, k))
    decreases k
  {
    if k > 0 {
      OddZero(k - 1);
      OddCons(0, 0, k - 1);
    }
  }

  // The polynomial and a single bit both have odd weight.
  lemma ParityConstants(bit: bool)
    ensures Parity(0xa001) && Parity(Bit(bit)) == bit
  {
    hide LowBits, Odd;
    OddZero(0);
    OddZero(15);
    OddZero(16);
    OddCons(1, 0, 15);
    OddCons(0xa001, 0x5000, 15);
    OddCons(0x5000, 0x2800, 14);
    OddCons(0x2800, 0x1400, 13);
    OddCons(0x1400, 0x0a00, 12);
    OddCons(0x0a00, 0x0500, 11);
    OddCons(0x0500, 0x0280, 10);
    OddCons(0x0280, 0x0140, 9);
    OddCons(0x0140, 0x00a0, 8);
    OddCons(0x00a0, 0x0050, 7);
    OddCons(0x0050, 0x0028, 6);
    OddCons(0x0028, 0x0014, 5);
    OddCons(0x0014, 0x000a, 4);
    OddCons(0x000a, 0x0005, 3);
    OddCons(0x0005, 0x0002, 2);
    OddCons(0x0002, 0x0001, 1);
    OddCons(0x0001, 0x0000, 0);
  }

  lemma ShiftParts(x: bv16)
    ensures Shift(x) == if Low(x) then Add(Half(x), 0xa001) else Half(x)
  {
  }

  lemma ParityStep(c: bv16, bit: bool)
    ensures Parity(Feed(c, bit)) == (Parity(c) != bit)
  {
    hide Shift, Add, Low, Half, LowBits, Bit;
    var x := Add(c, Bit(bit));
    ShiftParts(x);
    ParityConstants(bit);
    OddLinear(c, Bit(bit), 16);
    OddLinear(Half(x), 0xa001, 16);
    ParityHalf(x);
  }

  // The polynomial has an even number of terms, so the register's parity counts the bits fed so far.
  lemma {:induction false} ParityFed(c: bv16, bits: seq<bool>)
    ensures Parity(FeedBits(c, bits)) == (Parity(c) != Odd(bits))
    decreases |bits|
  {
    hide Parity, Feed;
    if bits != [] {
      ParityStep(c, bits[0]);
      ParityFed(Feed(c, bits[0]), bits[1..]);
    }
  }

  lemma {:induction false} OddXor(a: seq<bool>, b: seq<bool>)
    requires |a| == |b|
    ensures Odd(Xor(a, b)) == (Odd(a) != Odd(b))
    decreases |a|
  {
    if a != [] {
      OddXor(a[1..], b[1..]);
      assert Xor(a, b)[1..] == Xor(a[1..], b[1..]);
    }
  }

  // A transmitted frame with an odd number of flipped bits, anywhere, is rejected.
  lemma OddErrorsRejected(frame: seq<byte>, g: seq<byte>)
    requires |g| == |AppendCrc(frame)| && Odd(Xor(FrameBits(AppendCrc(frame)), FrameBits(g)))
    ensures !ValidCrc(g)
  {
    hide Parity, AppendCrc, FrameBits, FeedBits, Register, ValidCrc;
    var f := AppendCrc(frame);
    OddXor(FrameBits(f), FrameBits(g));
    ParityFed(INIT, FrameBits(f));
    ParityFed(INIT, FrameBits(g));
    RegisterFeeds(INIT, f);
    RegisterFeeds(INIT, g);
    AppendedIsValid(frame);
    ValidIffZero(g);
  }
}
