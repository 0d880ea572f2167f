// The PUBLISH packet on the wire (internal/mqtt/broker.go): sendPublish and encodeRemaining on one side,
// readPacket, readString and parsePublish on the other. Bytes are numbers below 256, so that the code's
// shifts and masks are divisions and remainders.
module PublishCodec {
  import opened Wrappers

  type byte = x: int | 0 <= x < 256

  const MAX_PACKET: nat := 16 * 1024 * 1024

  datatype Publish = Publish(topic: seq<byte>, payload: seq<byte>, qos: nat, pid: nat, dup: bool)

  // Type nibble, flag nibble, body, and what follows the packet.
  datatype Packet = Packet(typ: nat, flags: nat, body: seq<byte>, rest: seq<byte>)

  datatype ReadError = Eof | Malformed | TooLarge

  datatype ReadResult = Got(packet: Packet) | Failed(error: ReadError)

  function ToByte(n: nat): byte { n % 256 }

  function U16(n: nat): (w: seq<byte>)
    ensures |w| == 2
  {
    [ToByte(n / 256), ToByte(n)]
  }

  // Big-endian word at the front of p.
  function U16At(p: seq<byte>): nat
    requires |p| >= 2
  {
    (p[0] as int) * 256 + p[1] as int
  }

  // ----- remaining length (section 2.2.3 of MQTT 3.1.1) ---------------------------------------------------

  function Remaining(n: nat): (out: seq<byte>)
    ensures out != []
  {
    if n < 128 then [n] else [n % 128 + 128] + Remaining(n / 128)
  }

  method EncodeRemaining(n: nat) returns (out: seq<byte>)
    ensures out == Remaining(n)
  {
    out := [];
    var m := n;
    while true
      invariant out + Remaining(m) == Remaining(n)
      decreases m
    {
      var d := m % 128;
      ghost var before := m;
      m := m / 128;
      if m > 0 { d := d + 128; }
      out := out + [d];
      if m == 0 { return; }
      assert Remaining(before) == [d] + Remaining(m);
    }
  }

  lemma RemainingLength(n: nat)
    ensures n < 268435456 ==> |Remaining(n)| <= 4
    ensures n < 2097152 ==> |Remaining(n)| <= 3
    ensures n < 16384 ==> |Remaining(n)| <= 2
  {
    if n >= 128 {
      if n >= 16384 {
        if n >= 2097152 { assert n / 128 / 128 / 128 < 128 || n >= 268435456; }
      }
    }
  }

  datatype LenResult = Len(n: nat, rest: seq<byte>) | LenEof | LenMalformed

  // The variable-length field read digit by digit, at most `left` more bytes.
  function DecodeRemaining(s: seq<byte>, left: nat): LenResult
    decreases left
  {
    if left == 0 then LenMalformed
    else if s == [] then LenEof
    else if s[0] < 128 then Len(s[0], s[1..])
    else match DecodeRemaining(s[1..], left - 1)
         case Len(n, rest) => Len(s[0] % 128 + 128 * n, rest)
         case other => other
  }

  lemma {:induction false} RemainingRoundTrip(n: nat, rest: seq<byte>, left: nat)
    requires |Remaining(n)| <= left
    ensures DecodeRemaining(Remaining(n) + rest, left) == Len(n, rest)
    decreases left
  {
    var s := Remaining(n) + rest;
    if n < 128 {
      assert s[1..] == rest;
    } else {
      assert s[1..] == Remaining(n / 128) + rest;
      RemainingRoundTrip(n / 128, rest, left - 1);
    }
  }

  // ----- readPacket -------------------------------------------------------------------------------------

  function ReadPacketSpec(s: seq<byte>): ReadResult {
    if s == [] then Failed(Eof)
    else match DecodeRemaining(s[1..], 4)
         case LenEof => Failed(Eof)
         case LenMalformed => Failed(Malformed)
         case Len(n, rest) =>
           if n > MAX_PACKET then Failed(TooLarge)
           else if |rest| < n then Failed(Eof)
           else Got(Packet(s[0] / 16, s[0] % 16, rest[..n], rest[n..]))
  }

  // readPacket as written: up to four length bytes with a growing multiplier.
  method ReadPacket(s: seq<byte>) returns (r: ReadResult)
    ensures r == ReadPacketSpec(s)
  {
    if s == [] { return Failed(Eof); }
    var h, rest := s[0], s[1..];
    var n, mul := 0, 1;
    var i := 0;
    var more := true;
    while more
      invariant 0 <= i <= 4 && (more ==> i < 4) && mul >= 1 && n >= 0
      invariant more ==> DecodeRemaining(s[1..], 4) == Shifted(DecodeRemaining(rest, 4 - i), n, mul)
      invariant !more ==> DecodeRemaining(s[1..], 4) == Len(n, rest)
      decreases 4 - i, more
    {
      if rest == [] { return Failed(Eof); }
      var b := rest[0];
      Step(rest, 4 - i, n, mul);
      rest := rest[1..];
      n := n + b % 128 * mul;
      if b < 128 {
        more := false;
      } else {
        mul := mul * 128;
        if i == 3 { return Failed(Malformed); }
        i := i + 1;
      }
    }
    if n > MAX_PACKET { return Failed(TooLarge); }
    if |rest| < n { return Failed(Eof); }
    return Got(Packet(h / 16, h % 16, rest[..n], rest[n..]));
  }

  function Shifted(l: LenResult, n: nat, mul: nat): LenResult {
    match l case Len(m, rest) => Len(n + m * mul, rest) case other => other
  }

  lemma Step(s: seq<byte>, left: nat, n: nat, mul: nat)
    requires s != [] && left > 0
    ensures s[0] < 128 ==> Shifted(DecodeRemaining(s, left), n, mul) == Len(n + s[0] % 128 * mul, s[1..])
    ensures s[0] >= 128 ==> Shifted(DecodeRemaining(s, left), n, mul) ==
                              Shifted(DecodeRemaining(s[1..], left - 1), n + s[0] % 128 * mul, mul * 128)
  {
    if s[0] >= 128 {
      var l := DecodeRemaining(s[1..], left - 1);
      if l.Len? { Distribute(s[0] % 128, l.n, mul); }
    }
  }

  lemma Distribute(d: nat, m: nat, mul: nat)
    ensures (d + 128 * m) * mul == d * mul + m * (mul * 128)
  {
  }

  // ----- PUBLISH ----------------------------------------------------------------------------------------

  function Header(p: Publish): byte
    requires p.qos <= 2
  {
    48 + 2 * p.qos + (if p.qos > 0 && p.dup then 8 else 0)
  }

  function Body(p: Publish): seq<byte> {
    U16(|p.topic|) + p.topic + (if p.qos > 0 then U16(p.pid) else []) + p.payload
  }

  function Encode(p: Publish): seq<byte>
    requires p.qos <= 2
  {
    [Header(p)] + Remaining(|Body(p)|) + Body(p)
  }

  // sendPublish's assembly of the packet.
  method SendPublish(topic: seq<byte>, payload: seq<byte>, qos: nat, pid: nat, dup: bool) returns (pkt: seq<byte>)
    requires qos <= 2
    ensures pkt == Encode(Publish(topic, payload, qos, pid, dup))
  {
    var vh := [ToByte(|topic| / 256), ToByte(|topic|)] + topic;
    if qos > 0 { vh := vh + [ToByte(pid / 256), ToByte(pid)]; }
    var body := vh + payload;
    var h := 48;
    if qos == 1 { h := h + 2; } else if qos == 2 { h := h + 4; }
    if qos > 0 && dup { h := h + 8; }
    var len := EncodeRemaining(|body|);
    pkt := [h] + len + body;
    assert qos == 0 ==> vh + [] == vh;
  }

  function ReadString(p: seq<byte>): Option<(seq<byte>, seq<byte>)> {
    if |p| < 2 then None
    else
      var n := U16At(p);
      if |p| < 2 + n then None else Some((p[2..2 + n], p[2 + n..]))
  }

  // Topic, payload, QoS and packet id.
  function ParsePublish(flags: nat, p: seq<byte>): Option<(seq<byte>, seq<byte>, nat, nat)> {
    match ReadString(p)
    case None => None
    case Some((topic, rest)) =>
      var qos := flags / 2 % 4;
      if topic == [] || qos > 2 then None
      else if qos == 0 then Some((topic, rest, 0, 0))
      else if |rest| < 2 then None
      else Some((topic, rest[2..], qos, U16At(rest)))
  }

  // What the receiver gets out of a byte stream that starts with one packet.
  function Receive(s: seq<byte>): Option<((seq<byte>, seq<byte>, nat, nat), seq<byte>)> {
    match ReadPacketSpec(s)
    case Failed(_) => None
    case Got(pk) =>
      if pk.typ != 3 then None
      else match ParsePublish(pk.flags, pk.body) case None => None case Some(m) => Some((m, pk.rest))
  }

  lemma PacketRoundTrip(p: Publish, rest: seq<byte>)
    requires p.qos <= 2
    ensures |Body(p)| <= MAX_PACKET ==> ReadPacketSpec(Encode(p) + rest) == Got(Packet(3, Header(p) % 16, Body(p), rest))
    ensures |Body(p)| > MAX_PACKET ==> ReadPacketSpec(Encode(p) + rest).Failed?
  {
    var s, n := Encode(p) + rest, |Body(p)|;
    assert s[1..] == Remaining(n) + (Body(p) + rest);
    if n < 268435456 {
      RemainingLength(n);
      RemainingRoundTrip(n, Body(p) + rest, 4);
      assert (Body(p) + rest)[..n] == Body(p) && (Body(p) + rest)[n..] == rest;
    } else {
      TooLong(n, Body(p) + rest);
    }
  }

  lemma TooLong(n: nat, rest: seq<byte>)
    requires n >= 268435456
    ensures DecodeRemaining(Remaining(n) + rest, 4) == LenMalformed
  {
    StepLong(n, rest, 3);
    StepLong(n / 128, rest, 2);
    StepLong(n / 128 / 128, rest, 1);
    StepLong(n / 128 / 128 / 128, rest, 0);
    assert n / 128 / 128 / 128 >= 128;
  }

  lemma StepLong(n: nat, rest: seq<byte>, left: nat)
    ensures n >= 128 && DecodeRemaining(Remaining(n / 128) + rest, left) == LenMalformed
            ==> DecodeRemaining(Remaining(n) + rest, left + 1) == LenMalformed
    ensures left == 0 && n >= 128 ==> DecodeRemaining(Remaining(n) + rest, 1) == LenMalformed
  {
    if n >= 128 { assert (Remaining(n) + rest)[1..] == Remaining(n / 128) + rest; }
  }

  function Sent(p: Publish): (seq<byte>, seq<byte>, nat, nat) {
    (p.topic, p.payload, p.qos, if p.qos > 0 then p.pid else 0)
  }

  lemma U16RoundTrip(n: nat)
    ensures U16At(U16(n)) == n % 65536
  {
    assert n == 256 * (n / 256) + n % 256;
    assert n / 256 == 256 * (n / 65536) + n / 256 % 256;
  }

  lemma ReadStringBody(topic: seq<byte>, tail: seq<byte>)
    ensures |topic| < 65536 ==> ReadString(U16(|topic|) + topic + tail) == Some((topic, tail))
    ensures var r := ReadString(U16(|topic|) + topic + tail); r.Some? && |r.value.0| == |topic| % 65536
  {
    var p := U16(|topic|) + topic + tail;
    U16RoundTrip(|topic|);
    assert p[0] == U16(|topic|)[0] && p[1] == U16(|topic|)[1];
    if |topic| < 65536 { assert p[2..2 + |topic|] == topic && p[2 + |topic|..] == tail; }
  }

  lemma HeaderFlags(p: Publish)
    requires p.qos <= 2
    ensures Header(p) / 16 == 3 && Header(p) % 16 / 2 % 4 == p.qos
  {
    assert p.qos == 0 || p.qos == 1 || p.qos == 2;
  }

  lemma BodyRoundTrip(p: Publish)
    requires p.qos <= 2 && 0 < |p.topic| < 65536 && p.pid < 65536
    ensures ParsePublish(Header(p) % 16, Body(p)) == Some(Sent(p))
  {
    var tail := (if p.qos > 0 then U16(p.pid) else []) + p.payload;
    assert Body(p) == U16(|p.topic|) + p.topic + tail;
    ReadStringBody(p.topic, tail);
    U16RoundTrip(p.pid);
    HeaderFlags(p);
    hide Header, ReadString;
    if p.qos > 0 {
      assert tail[2..] == p.payload;
    } else {
      assert tail == p.payload;
    }
  }

  // Main theorem: the receiver recovers topic, payload, QoS and packet id, and leaves the following bytes
  // alone, exactly when the topic is non-empty and at most 65535 bytes and the body at most 16 MiB.
  lemma PublishRoundTripIff(p: Publish, rest: seq<byte>)
    requires p.qos <= 2 && p.pid < 65536
    ensures Receive(Encode(p) + rest) == Some((Sent(p), rest)) <==>
              0 < |p.topic| < 65536 && |Body(p)| <= MAX_PACKET
  {
    hide ReadPacketSpec, Encode, Header, Body, ReadString;
    PacketRoundTrip(p, rest);
    HeaderFlags(p);
    if 0 < |p.topic| < 65536 {
      hide ParsePublish;
      BodyRoundTrip(p);
    } else {
      BodyTopicLength(p);
    }
  }

  lemma BodyTopicLength(p: Publish)
    ensures var r := ReadString(Body(p)); r.Some? && |r.value.0| == |p.topic| % 65536
  {
    var tail := (if p.qos > 0 then U16(p.pid) else []) + p.payload;
    assert Body(p) == U16(|p.topic|) + p.topic + tail;
    ReadStringBody(p.topic, tail);
  }

  // ----- the wire format -----------------------------------------------------------------------------------

  // Base 128, least digit first; the top bit of each byte is not part of the value.
  function Base128(d: seq<byte>): nat {
    if d == [] then 0 else d[0] % 128 + 128 * Base128(d[1..])
  }

  // A length field of up to `left` bytes: the top bit is set in all but the last.
  ghost predicate LengthField(d: seq<byte>, left: nat) {
    && 1 <= |d| <= left && d[|d| - 1] < 128
    && forall i :: 0 <= i < |d| - 1 ==> d[i] >= 128
  }

  lemma {:induction false} DecodeAccepts(d: seq<byte>, rest: seq<byte>, left: nat)
    requires LengthField(d, left)
    ensures DecodeRemaining(d + rest, left) == Len(Base128(d), rest)
    decreases left
  {
    assert (d + rest)[1..] == d[1..] + rest;
    if |d| == 1 {
      assert d[1..] == [] && [] + rest == rest;
    } else {
      DecodeAccepts(d[1..], rest, left - 1);
    }
  }

  lemma {:induction false} DecodeYields(s: seq<byte>, left: nat) returns (d: seq<byte>)
    requires DecodeRemaining(s, left).Len?
    ensures LengthField(d, left) && DecodeRemaining(s, left).n == Base128(d) && s == d + DecodeRemaining(s, left).rest
    decreases left
  {
    if s[0] < 128 {
      d := [s[0]];
      assert d[1..] == [];
    } else {
      var e := DecodeYields(s[1..], left - 1);
      d := [s[0]] + e;
      assert d[1..] == e;
      assert s == [s[0]] + s[1..];
    }
  }

  // A packet is read exactly when the stream is a type and flag byte, a length field of at most four bytes whose value
  // is at most 16 MiB, that many bytes of body, and whatever follows.
  lemma ReadPacketExact(s: seq<byte>, pk: Packet)
    ensures ReadPacketSpec(s) == Got(pk) <==>
              && s != [] && s[0] == 16 * pk.typ + pk.flags && pk.flags < 16
              && exists d :: LengthField(d, 4) && Base128(d) == |pk.body| <= 0x1000000 && s[1..] == d + (pk.body + pk.rest)
  {
    hide LengthField, Base128, DecodeRemaining;
    var tail := pk.body + pk.rest;
    assert tail[..|pk.body|] == pk.body && tail[|pk.body|..] == pk.rest;
    if ReadPacketSpec(s) == Got(pk) {
      var d := DecodeYields(s[1..], 4);
      assert DecodeRemaining(s[1..], 4).rest == tail;
    }
    if s != [] && s[0] == 16 * pk.typ + pk.flags && pk.flags < 16 {
      if d :| LengthField(d, 4) && Base128(d) == |pk.body| <= 0x1000000 && s[1..] == d + tail { DecodeAccepts(d, tail, 4); }
    }
  }

  // The body of a PUBLISH after its fixed header: topic with its length, packet id above QoS 0, payload; words are
  // written high byte first.
  ghost predicate PublishForm(p: seq<byte>, topic: seq<byte>, payload: seq<byte>, qos: nat, pid: nat) {
    && |p| >= 2 && 256 * p[0] as int + p[1] as int == |topic|
    && if qos == 0 then p[2..] == topic + payload && pid == 0
       else exists hi: byte, lo: byte :: 256 * hi + lo == pid && p[2..] == topic + [hi, lo] + payload
  }

  // A PUBLISH is taken exactly when its body has that form, with a topic that is not empty and a QoS of at most 2.
  lemma ParseExact(flags: nat, p: seq<byte>, topic: seq<byte>, payload: seq<byte>, qos: nat, pid: nat)
    ensures ParsePublish(flags, p) == Some((topic, payload, qos, pid)) <==>
              qos == flags / 2 % 4 && qos <= 2 && topic != [] && PublishForm(p, topic, payload, qos, pid)
  {
    var n := |topic|;
    if ParsePublish(flags, p) == Some((topic, payload, qos, pid)) {
      assert p[2..] == p[2..2 + n] + p[2 + n..];
      if qos > 0 {
        var rest := p[2 + n..];
        assert rest == [rest[0], rest[1]] + rest[2..];
        assert p[2..] == topic + [rest[0], rest[1]] + payload;
      }
    }
    if qos == flags / 2 % 4 && qos <= 2 && topic != [] && PublishForm(p, topic, payload, qos, pid) {
      if qos == 0 {
        assert p[2..2 + n] == p[2..][..n] == topic && p[2 + n..] == p[2..][n..] == payload;
      } else {
        var hi: byte, lo: byte :| 256 * hi + lo == pid && p[2..] == topic + [hi, lo] + payload;
        assert p[2..2 + n] == p[2..][..n] == topic && p[2 + n..] == p[2..][n..] == [hi, lo] + payload;
        assert ([hi, lo] + payload)[2..] == payload;
      }
    }
  }

  // What is sent: type 3 in the high nibble, then DUP (above QoS 0), QoS and no RETAIN, a length field for the body, and
  // a body of that form.
  lemma PublishWire(p: Publish)
    requires p.qos <= 2 && p.pid < 65536 && 0 < |p.topic| < 65536 && |Body(p)| <= MAX_PACKET
    ensures var s := Encode(p);
            && s[0] == 0x30 + (if p.dup && p.qos > 0 then 8 else 0) + 2 * p.qos
            && exists d :: && LengthField(d, 4) && Base128(d) == |s| - 1 - |d| && d <= s[1..]
                           && PublishForm(s[1..][|d|..], p.topic, p.payload, p.qos, if p.qos > 0 then p.pid else 0)
  {
    hide LengthField, Base128, PublishForm, ParsePublish, Body;
    PacketRoundTrip(p, []);
    BodyRoundTrip(p);
    HeaderFlags(p);
    var s := Encode(p);
    assert s + [] == s;
    ReadPacketExact(s, Packet(3, Header(p) % 16, Body(p), []));
    var d :| LengthField(d, 4) && Base128(d) == |Body(p)| <= 0x1000000 && s[1..] == d + (Body(p) + []);
    ParseExact(Header(p) % 16, Body(p), p.topic, p.payload, p.qos, if p.qos > 0 then p.pid else 0);
    assert s[1..][|d|..] == Body(p);
  }

  // The remaining length never needs more than four bytes for a packet the receiver accepts.
  lemma FourBytesSuffice(n: nat)
    requires n <= MAX_PACKET
    ensures 1 <= |Remaining(n)| <= 4
  {
    RemainingLength(n);
  }
}
