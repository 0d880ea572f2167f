// OPC UA secure conversation chunks under Basic256Sha256 (connectors/opcua/securechannel_basic256.go and the padding,
// block and key derivation loops of connectors/opcua/crypto_basic256.go). The primitives themselves (RSA, AES, HMAC,
// SHA-1) are functions about which only their interface laws are known.
module SecureChunk {
  import opened Wrappers

  newtype byte = x: int | 0 <= x < 256

  type Bytes = seq<byte>

  const OAEP_OVERHEAD: nat := 42
  const MIN_KEY_BITS: nat := 2048
  const HMAC_SIZE: nat := 32
  const AES_KEY: nat := 32
  const AES_BLOCK: nat := 16

  // ----- integers and byte strings on the wire ------------------------------------------------------------

  function Low(n: nat): byte { (n % 256) as byte }

  function LE32(v: nat): (b: Bytes)
    ensures |b| == 4
  {
    [Low(v), Low(v / 256), Low(v / 65536), Low(v / 16777216)]
  }

  function U32(b: Bytes): nat
    requires |b| == 4
  {
    b[0] as nat + 256 * b[1] as nat + 65536 * b[2] as nat + 16777216 * b[3] as nat
  }

  lemma LE32RoundTrip(v: nat)
    ensures U32(LE32(v)) == v % 0x1_0000_0000
  {
    assert v / 65536 == v / 256 / 256;
    assert v / 16777216 == v / 65536 / 256;
    assert v % 0x1_0000_0000 == v - v / 0x1_0000_0000 * 0x1_0000_0000;
    assert v / 0x1_0000_0000 == v / 16777216 / 256;
  }

  // The bytes written are the digits of the number to base 256, least first, and reading and writing are inverse.
  lemma LE32Digits(v: nat)
    requires v < 0x1_0000_0000
    ensures var b := LE32(v); v == b[0] as nat + 256 * (b[1] as nat + 256 * (b[2] as nat + 256 * b[3] as nat))
    ensures U32(LE32(v)) == v
  {
    LE32RoundTrip(v);
    assert v / 65536 == v / 256 / 256;
    assert v / 16777216 == v / 65536 / 256;
  }

  lemma U32Digits(b: Bytes)
    requires |b| == 4
    ensures U32(b) < 0x1_0000_0000 && LE32(U32(b)) == b
  {
    var v := U32(b);
    var x, y, z := b[1] as nat + 256 * b[2] as nat + 65536 * b[3] as nat, b[2] as nat + 256 * b[3] as nat, b[3] as nat;
    assert v == b[0] as nat + 256 * x && x == b[1] as nat + 256 * y && y == b[2] as nat + 256 * z;
    assert v / 256 == x && x / 256 == y && y / 256 == z;
    assert v / 65536 == x / 256 && v / 16777216 == y / 256;
  }

  // Length-prefixed strings.
  function WriteBytes(s: Bytes): Bytes { LE32(|s|) + s }

  datatype Read = Read(value: Bytes, off: nat)

  // A length of zero or less reads as the empty string.
  function ReadBytes(b: Bytes, off: nat): Result<Read> {
    if off + 4 > |b| then Err else
    var n := U32(b[off..off + 4]);
    if n == 0 || n >= 0x8000_0000 then Ok(Read([], off + 4))
    else if off + 4 + n > |b| then Err
    else Ok(Read(b[off + 4..off + 4 + n], off + 4 + n))
  }

  lemma ReadWritten(pre: Bytes, s: Bytes, post: Bytes)
    requires |s| < 0x8000_0000
    ensures ReadBytes(pre + WriteBytes(s) + post, |pre|) == Ok(Read(s, |pre| + 4 + |s|))
  {
    hide LE32, U32;
    var b := pre + WriteBytes(s) + post;
    assert b[|pre|..|pre| + 4] == LE32(|s|);
    LE32RoundTrip(|s|);
    assert b[|pre| + 4..|pre| + 4 + |s|] == s;
  }

  // ----- padding ------------------------------------------------------------------------------------------

  function Header(extra: bool): nat { if extra then 2 else 1 }

  function Repeat(x: byte, n: nat): (r: Bytes)
    ensures |r| == n
  {
    seq(n, _ => x)
  }

  // The padding field for a count: the count's low byte, that many bytes of padding, and its high byte.
  function Field(n: nat, extra: bool): (f: Bytes)
    ensures |f| == n + Header(extra)
  {
    [Low(n)] + Repeat(Low(n), n) + (if extra then [Low(n / 256)] else [])
  }

  function PadCount(dataLen: nat, sigSize: nat, block: nat, extra: bool): nat
    requires block > 0
  {
    (block - (dataLen + Header(extra) + sigSize) % block) % block
  }

  method BuildField(n: nat, extra: bool) returns (out: Bytes)
    ensures out == Field(n, extra)
  {
    out := [Low(n)];
    for i := 0 to n
      invariant out == [Low(n)] + Repeat(Low(n), i)
    {
      out := out + [Low(n)];
      assert Repeat(Low(n), i) + [Low(n)] == Repeat(Low(n), i + 1);
    }
    if extra { out := out + [Low(n / 256)]; }
  }

  method MessagePadding(dataLen: nat, sigSize: nat, block: nat, extra: bool) returns (out: Bytes)
    requires block > 0
    ensures out == Field(PadCount(dataLen, sigSize, block, extra), extra)
  {
    hide Field;
    var header := if extra then 2 else 1;
    var n := (block - (dataLen + header + sigSize) % block) % block;
    out := BuildField(n, extra);
  }

  // The count a receiver reads off the end.
  function CountAt(b: Bytes, extra: bool): nat
    requires |b| >= Header(extra)
  {
    if extra then 256 * b[|b| - 1] as nat + b[|b| - 2] as nat else b[|b| - 1] as nat
  }

  function Strip(b: Bytes, extra: bool): Result<Bytes> {
    if |b| < Header(extra) then Err else
    var n := CountAt(b, extra);
    var end := |b| - n - Header(extra);
    if end < 0 || b[end] != Low(n) then Err
    else if exists i :: end + 1 <= i < end + 1 + n && b[i] != Low(n) then Err
    else Ok(b[..end])
  }

  method StripMessagePadding(b: Bytes, extra: bool) returns (r: Result<Bytes>)
    ensures r == Strip(b, extra)
  {
    var header := if extra then 2 else 1;
    if |b| < header { return Err; }
    var n := b[|b| - 1] as nat;
    if extra { n := b[|b| - 1] as nat * 256 + b[|b| - 2] as nat; }
    var end := |b| - n - header;
    if end < 0 || b[end] != Low(n) { return Err; }
    for i := end + 1 to end + 1 + n
      invariant forall j :: end + 1 <= j < i ==> b[j] == Low(n)
    {
      if b[i] != Low(n) { return Err; }
    }
    return Ok(b[..end]);
  }

  // Counts that fit the field.
  function Limit(extra: bool): nat { if extra then 65536 else 256 }

  // What the receiver reads off the end of a field: the count, cut to the width of the field.
  lemma CountRead(d: Bytes, n: nat, extra: bool)
    ensures CountAt(d + Field(n, extra), extra) == n % Limit(extra)
  {
    var b := d + Field(n, extra);
    if extra {
      assert b[|b| - 1] == Low(n / 256);
      assert b[|b| - 2] == Low(n);
      assert n / 256 / 256 == n / 65536;
    } else {
      assert b[|b| - 1] == Low(n);
    }
  }

  // Stripping undoes padding exactly for the counts the field can hold; a larger count leaves padding in the data.
  lemma StripInvertsIff(d: Bytes, n: nat, extra: bool)
    ensures Strip(d + Field(n, extra), extra) == Ok(d) <==> n < Limit(extra)
  {
    var b := d + Field(n, extra);
    CountRead(d, n, extra);
    if n < Limit(extra) { StripInverts(d, n, extra); }
  }

  lemma StripInverts(d: Bytes, n: nat, extra: bool)
    requires n < Limit(extra)
    ensures Strip(d + Field(n, extra), extra) == Ok(d)
  {
    var b := d + Field(n, extra);
    CountRead(d, n, extra);
    assert forall i :: |d| <= i < |d| + 1 + n ==> b[i] == Low(n);
    assert b[..|d|] == d;
  }

  // A receiver accepts exactly the well-formed paddings, and returns what precedes them.
  lemma StripExact(b: Bytes, extra: bool, d: Bytes)
    ensures Strip(b, extra) == Ok(d) <==> exists n :: 0 <= n < Limit(extra) && b == d + Field(n, extra)
  {
    if Strip(b, extra) == Ok(d) {
      var n := CountAt(b, extra);
      assert n < Limit(extra);
      FieldAt(b, extra);
      assert b == d + Field(n, extra);
    }
    if n :| 0 <= n < Limit(extra) && b == d + Field(n, extra) { StripInvertsIff(d, n, extra); }
  }

  lemma FieldAt(b: Bytes, extra: bool)
    requires Strip(b, extra).Ok?
    ensures var n := CountAt(b, extra); n + Header(extra) <= |b| && b[|b| - n - Header(extra)..] == Field(n, extra)
  {
    var n := CountAt(b, extra);
    var end := |b| - n - Header(extra);
    var f := b[end..];
    forall i | 0 <= i < |f| ensures f[i] == Field(n, extra)[i] {
      if i > n { assert n / 256 == b[|b| - 1] as nat; }
    }
  }

  // ----- whole blocks ---------------------------------------------------------------------------------------

  lemma AddBlock(x: nat, m: nat)
    requires m > 0
    ensures (x + m) % m == x % m && (x + m) / m == x / m + 1
  {
    var q, r := x / m, x % m;
    assert x + m == (q + 1) * m + r;
    Unique(q + 1, r, m);
  }

  lemma {:induction false} Multiples(d: nat, m: nat)
    ensures d >= 1 ==> d * m >= m
  {
    if d > 1 {
      Multiples(d - 1, m);
      assert d * m == (d - 1) * m + m;
    }
  }

  lemma Unique(q: nat, r: nat, m: nat)
    requires r < m
    ensures (q * m + r) / m == q && (q * m + r) % m == r
  {
    var x := q * m + r;
    var q', r' := x / m, x % m;
    assert q' * m + r' == q * m + r;
    Multiples(if q' > q then q' - q else q - q', m);
    assert (q' - q) * m == q' * m - q * m;
    assert (q - q') * m == q * m - q' * m;
  }

  // Padding makes whole blocks.
  lemma PaddedWhole(dataLen: nat, sigSize: nat, block: nat, extra: bool)
    requires block > 0
    ensures PadCount(dataLen, sigSize, block, extra) < block
    ensures (dataLen + |Field(PadCount(dataLen, sigSize, block, extra), extra)| + sigSize) % block == 0
  {
    var t, n := dataLen + Header(extra) + sigSize, PadCount(dataLen, sigSize, block, extra);
    var q, r := t / block, t % block;
    if r == 0 {
      Unique(1, 0, block);
      assert n == 0;
    } else {
      Unique(0, block - r, block);
      assert t + n == (q + 1) * block;
      Unique(q + 1, 0, block);
    }
  }

  // ----- RSA-OAEP, block by block ---------------------------------------------------------------------------

  // `encrypt` takes a block and the randomness it uses.
  datatype PublicKey = PublicKey(bits: nat, encrypt: (Bytes, Bytes) -> Bytes, verify: (Bytes, Bytes) -> bool)

  datatype PrivateKey = PrivateKey(bits: nat, decrypt: Bytes -> Result<Bytes>, sign: Bytes -> Bytes)

  function Size(bits: nat): nat { (bits + 7) / 8 }

  function PlainBlock(bits: nat): int { Size(bits) - OAEP_OVERHEAD }

  // A key pair: decryption inverts encryption whatever the randomness, signatures verify, lengths are the key's.
  ghost predicate Pair(pub: PublicKey, priv: PrivateKey) {
    && pub.bits == priv.bits
    && (forall m, r :: |m| == PlainBlock(pub.bits) ==>
          |pub.encrypt(m, r)| == Size(pub.bits) && priv.decrypt(pub.encrypt(m, r)) == Ok(m))
    && (forall m :: |priv.sign(m)| == Size(pub.bits) && pub.verify(m, priv.sign(m)))
  }

  // Randomness is indexed by the offset of the block.
  function EncryptBlocks(pub: PublicKey, plain: Bytes, rnd: nat -> Bytes): Bytes
    requires PlainBlock(pub.bits) > 0 && |plain| % PlainBlock(pub.bits) == 0
    decreases |plain|
  {
    if plain == [] then [] else
    var m := PlainBlock(pub.bits);
    ShorterByBlock(|plain|, m);
    var off := |plain| - m;
    EncryptBlocks(pub, plain[..off], rnd) + pub.encrypt(plain[off..], rnd(off))
  }

  lemma ShorterByBlock(n: nat, m: nat)
    requires n > 0 && m > 0 && n % m == 0
    ensures n >= m && (n - m) % m == 0 && n / m == (n - m) / m + 1
  {
    if n < m { Unique(0, n, m); } else { AddBlock(n - m, m); }
  }

  function OaepEncrypt(pub: PublicKey, plain: Bytes, rnd: nat -> Bytes): Result<Bytes> {
    if PlainBlock(pub.bits) <= 0 || plain == [] || |plain| % PlainBlock(pub.bits) != 0 then Err
    else Ok(EncryptBlocks(pub, plain, rnd))
  }

  method RsaOaepEncrypt(pub: PublicKey, plain: Bytes, rnd: nat -> Bytes) returns (r: Result<Bytes>)
    ensures r == OaepEncrypt(pub, plain, rnd)
  {
    var block := Size(pub.bits) - OAEP_OVERHEAD;
    if block <= 0 { return Err; }
    if |plain| == 0 || |plain| % block != 0 { return Err; }
    var out: Bytes := [];
    var off := 0;
    assert plain[..0] == [];
    while off < |plain|
      invariant 0 <= off <= |plain| && off % block == 0 && (|plain| - off) % block == 0
      invariant out == EncryptBlocks(pub, plain[..off], rnd)
    {
      ShorterByBlock(|plain| - off, block);
      AddBlock(off, block);
      assert plain[..off + block][..off] == plain[..off];
      assert plain[..off + block][off..] == plain[off..off + block];
      out := out + pub.encrypt(plain[off..off + block], rnd(off));
      off := off + block;
    }
    assert plain[..off] == plain;
    return Ok(out);
  }

  function DecryptBlocks(priv: PrivateKey, cipher: Bytes): Result<Bytes>
    requires Size(priv.bits) > 0 && |cipher| % Size(priv.bits) == 0
    decreases |cipher|
  {
    if cipher == [] then Ok([]) else
    var m := Size(priv.bits);
    ShorterByBlock(|cipher|, m);
    var off := |cipher| - m;
    var front := DecryptBlocks(priv, cipher[..off]);
    if front.Err? then Err else
    var last := priv.decrypt(cipher[off..]);
    if last.Err? then Err else Ok(front.value + last.value)
  }

  function OaepDecrypt(priv: PrivateKey, cipher: Bytes): Result<Bytes> {
    if Size(priv.bits) == 0 || cipher == [] || |cipher| % Size(priv.bits) != 0 then Err else DecryptBlocks(priv, cipher)
  }

  method RsaOaepDecrypt(priv: PrivateKey, cipher: Bytes) returns (r: Result<Bytes>)
    requires priv.bits > 0
    ensures r == OaepDecrypt(priv, cipher)
  {
    var block := Size(priv.bits);
    if |cipher| == 0 || |cipher| % block != 0 { return Err; }
    var out: Bytes := [];
    var off := 0;
    assert cipher[..0] == [];
    while off < |cipher|
      invariant 0 <= off <= |cipher| && off % block == 0 && (|cipher| - off) % block == 0
      invariant DecryptBlocks(priv, cipher[..off]) == Ok(out)
    {
      ShorterByBlock(|cipher| - off, block);
      AddBlock(off, block);
      assert cipher[..off + block][..off] == cipher[..off];
      assert cipher[..off + block][off..] == cipher[off..off + block];
      var m := priv.decrypt(cipher[off..off + block]);
      if m.Err? {
        ErrSticks(priv, cipher, off + block);
        return Err;
      }
      out := out + m.value;
      off := off + block;
    }
    assert cipher[..off] == cipher;
    return Ok(out);
  }

  // One block that fails to decrypt fails the whole.
  lemma {:induction false} ErrSticks(priv: PrivateKey, cipher: Bytes, k: nat)
    requires Size(priv.bits) > 0 && |cipher| % Size(priv.bits) == 0
    requires k <= |cipher| && k % Size(priv.bits) == 0 && DecryptBlocks(priv, cipher[..k]).Err?
    ensures DecryptBlocks(priv, cipher).Err?
    decreases |cipher|
  {
    var m := Size(priv.bits);
    if k == |cipher| {
      assert cipher[..k] == cipher;
    } else {
      ShorterByBlock(|cipher|, m);
      var off := |cipher| - m;
      MultipleBelow(k, |cipher|, m);
      assert cipher[..off][..k] == cipher[..k];
      ErrSticks(priv, cipher[..off], k);
    }
  }

  lemma MultipleBelow(k: nat, n: nat, m: nat)
    requires m > 0 && k % m == 0 && n % m == 0 && k < n
    ensures k <= n - m
  {
    var a, b := k / m, n / m;
    assert k == a * m && n == b * m;
    Multiples(if b > a then b - a else a - b, m);
    assert (b - a) * m == b * m - a * m;
    assert (a - b) * m == a * m - b * m;
  }

  lemma OneMoreBlock(front: Bytes, last: Bytes, n: nat, k: nat)
    requires |front| == n * k && |last| == k && k > 0 && |front| % k == 0
    ensures |front + last| == (n + 1) * k && |front + last| % k == 0
    ensures (front + last)[..|front + last| - k] == front && (front + last)[|front + last| - k..] == last
  {
    AddBlock(|front|, k);
  }

  lemma PairBlock(pub: PublicKey, priv: PrivateKey, m: Bytes, r: Bytes)
    requires Pair(pub, priv) && |m| == PlainBlock(pub.bits)
    ensures |pub.encrypt(m, r)| == Size(pub.bits) && priv.decrypt(pub.encrypt(m, r)) == Ok(m)
  {
  }

  // The ciphertext has one key-sized block for each plaintext block.
  lemma {:induction false} BlocksLength(pub: PublicKey, priv: PrivateKey, plain: Bytes, rnd: nat -> Bytes)
    requires Pair(pub, priv) && PlainBlock(pub.bits) > 0 && |plain| % PlainBlock(pub.bits) == 0
    ensures var c := EncryptBlocks(pub, plain, rnd);
            |c| == |plain| / PlainBlock(pub.bits) * Size(pub.bits) && |c| % Size(pub.bits) == 0
    decreases |plain|
  {
    hide Pair;
    var m, k := PlainBlock(pub.bits), Size(pub.bits);
    if plain == [] {
      Unique(0, 0, m);
      Unique(0, 0, k);
    } else {
      ShorterByBlock(|plain|, m);
      var off := |plain| - m;
      BlocksLength(pub, priv, plain[..off], rnd);
      PairBlock(pub, priv, plain[off..], rnd(off));
      OneMoreBlock(EncryptBlocks(pub, plain[..off], rnd), pub.encrypt(plain[off..], rnd(off)), off / m, k);
    }
  }

  // The block loops are inverse.
  lemma {:induction false} BlocksRoundTrip(pub: PublicKey, priv: PrivateKey, plain: Bytes, rnd: nat -> Bytes)
    requires Pair(pub, priv) && PlainBlock(pub.bits) > 0 && |plain| % PlainBlock(pub.bits) == 0
    ensures var c := EncryptBlocks(pub, plain, rnd);
            && |c| == |plain| / PlainBlock(pub.bits) * Size(pub.bits) && |c| % Size(pub.bits) == 0
            && DecryptBlocks(priv, c) == Ok(plain)
    decreases |plain|
  {
    BlocksLength(pub, priv, plain, rnd);
    if plain != [] {
      var m, k := PlainBlock(pub.bits), Size(pub.bits);
      ShorterByBlock(|plain|, m);
      var off := |plain| - m;
      BlocksRoundTrip(pub, priv, plain[..off], rnd);
      PairBlock(pub, priv, plain[off..], rnd(off));
      assert plain == plain[..off] + plain[off..];
      DecryptSnoc(priv, EncryptBlocks(pub, plain[..off], rnd), pub.encrypt(plain[off..], rnd(off)));
    }
  }

  lemma DecryptSnoc(priv: PrivateKey, front: Bytes, last: Bytes)
    requires Size(priv.bits) > 0 && |front| % Size(priv.bits) == 0 && |last| == Size(priv.bits)
    requires DecryptBlocks(priv, front).Ok? && priv.decrypt(last).Ok?
    ensures |front + last| % Size(priv.bits) == 0
    ensures DecryptBlocks(priv, front + last) == Ok(DecryptBlocks(priv, front).value + priv.decrypt(last).value)
  {
    AddBlock(|front|, Size(priv.bits));
    assert (front + last)[..|front|] == front && (front + last)[|front|..] == last;
  }

  // ----- chunks ---------------------------------------------------------------------------------------------

  function ChunkHeader(msgType: Bytes, size: nat, channel: nat): Bytes {
    msgType + [70] + LE32(size) + LE32(channel)
  }

  function SequenceHeader(seqNum: nat, reqId: nat): (h: Bytes)
    ensures |h| == 8
  {
    LE32(seqNum) + LE32(reqId)
  }

  // One end of a channel: its own key and certificate and what it knows of its peer.
  datatype Party = Party(own: PrivateKey, cert: Bytes, peer: PublicKey, peerCert: Bytes)

  ghost predicate Mirror(a: Party, b: Party) {
    a.cert == b.peerCert && a.peerCert == b.cert && Pair(a.peer, b.own) && Pair(b.peer, a.own)
  }

  function Extra(bits: nat): bool { bits > MIN_KEY_BITS }

  function AsymSecHeader(p: Party, policy: Bytes, thumb: Bytes -> Bytes): Bytes {
    WriteBytes(policy) + WriteBytes(p.cert) + WriteBytes(thumb(p.peerCert))
  }

  // Sequence header, body and padding, as they are signed and encrypted.
  function AsymPlain(p: Party, seqNum: nat, reqId: nat, body: Bytes): Bytes
    requires PlainBlock(p.peer.bits) > 0
  {
    SequenceHeader(seqNum, reqId) + body
    + Field(PadCount(8 + |body|, Size(p.own.bits), PlainBlock(p.peer.bits), Extra(p.peer.bits)), Extra(p.peer.bits))
  }

  function AsymHeader(p: Party, msgType: Bytes, sec: Bytes, plain: Bytes, channel: nat): Bytes
    requires PlainBlock(p.peer.bits) > 0
  {
    ChunkHeader(msgType, 12 + |sec| + (|plain| + Size(p.own.bits)) / PlainBlock(p.peer.bits) * Size(p.peer.bits), channel)
  }

  function AsymChunk(p: Party, msgType: Bytes, policy: Bytes, thumb: Bytes -> Bytes, channel: nat, seqNum: nat, reqId: nat,
                     body: Bytes, rnd: nat -> Bytes): Result<Bytes>
    requires PlainBlock(p.peer.bits) > 0
  {
    var sec := AsymSecHeader(p, policy, thumb);
    var plain := AsymPlain(p, seqNum, reqId, body);
    var hdr := AsymHeader(p, msgType, sec, plain, channel);
    var enc := OaepEncrypt(p.peer, plain + p.own.sign(hdr + sec + plain), rnd);
    if enc.Err? then Err else Ok(hdr + sec + enc.value)
  }

  datatype Chunk = Chunk(msgType: Bytes, hdr: Bytes, payload: Bytes, rest: Bytes)

  // readChunkRaw: eight header bytes, then as many as they announce.
  function ReadChunk(wire: Bytes): Result<Chunk> {
    if |wire| < 8 then Err else
    var size := U32(wire[4..8]);
    if size < 8 || |wire| < size then Err else Ok(Chunk(wire[..3], wire[..8], wire[8..size], wire[size..]))
  }

  datatype SecHeader = SecHeader(cert: Bytes, thumb: Bytes, end: nat)

  function ReadSecHeader(payload: Bytes): Result<SecHeader> {
    if |payload| < 4 then Err else
    var policy := ReadBytes(payload, 4);
    if policy.Err? then Err else
    var cert := ReadBytes(payload, policy.value.off);
    if cert.Err? then Err else
    var thumb := ReadBytes(payload, cert.value.off);
    if thumb.Err? then Err else Ok(SecHeader(cert.value.value, thumb.value.value, thumb.value.off))
  }

  function DecodeAsym(p: Party, thumb: Bytes -> Bytes, hdr: Bytes, payload: Bytes): Result<Bytes> {
    var h := ReadSecHeader(payload);
    if h.Err? || h.value.end > |payload| then Err else
    var SecHeader(cert, mark, end) := h.value;
    if mark != [] && mark != thumb(p.cert) then Err
    else if cert != [] && !(p.peerCert <= cert) then Err
    else
      var plain := OaepDecrypt(p.own, payload[end..]);
      if plain.Err? then Err else OpenAsym(p, hdr + payload[..end], plain.value)
  }

  // Signature and padding of a decrypted chunk.
  function OpenAsym(p: Party, covered: Bytes, plain: Bytes): Result<Bytes> {
    var sigSize := Size(p.peer.bits);
    if |plain| < 8 + sigSize then Err else
    var signedLen := |plain| - sigSize;
    if !p.peer.verify(covered + plain[..signedLen], plain[signedLen..]) then Err
    else Strip(plain[8..signedLen], Extra(p.own.bits))
  }

  // ----- the asymmetric round trip --------------------------------------------------------------------------

  lemma HeaderParts(msgType: Bytes, size: nat, channel: nat)
    requires |msgType| == 3
    ensures var h := ChunkHeader(msgType, size, channel);
            |h| == 12 && h[..3] == msgType && h[4..8] == LE32(size) && h[8..] == LE32(channel)
  {
  }

  // A chunk whose header announces its length is read back whole, wherever the stream goes on.
  lemma ReadBack(msgType: Bytes, size: nat, channel: nat, tail: Bytes, rest: Bytes)
    requires |msgType| == 3 && size == 12 + |tail| < 0x1_0000_0000
    ensures var h := ChunkHeader(msgType, size, channel);
            ReadChunk(h + tail + rest) == Ok(Chunk(msgType, h[..8], LE32(channel) + tail, rest))
  {
    hide LE32, U32, ChunkHeader;
    HeaderParts(msgType, size, channel);
    LE32RoundTrip(size);
    var h := ChunkHeader(msgType, size, channel);
    var w := h + tail + rest;
    assert w[4..8] == h[4..8];
    assert w[..3] == h[..3] && w[..8] == h[..8];
    assert w[8..size] == h[8..] + tail;
    assert w[size..] == rest;
  }

  // The announced size is right exactly when it fits its 32 bits.
  lemma AnnouncedIff(msgType: Bytes, size: nat, channel: nat)
    requires |msgType| == 3
    ensures U32(ChunkHeader(msgType, size, channel)[4..8]) == size <==> size < 0x1_0000_0000
  {
    hide LE32, U32, ChunkHeader;
    HeaderParts(msgType, size, channel);
    LE32RoundTrip(size);
  }

  lemma SecHeaderRead(channel: Bytes, policy: Bytes, cert: Bytes, mark: Bytes, post: Bytes)
    requires |channel| == 4 && |policy| < 0x8000_0000 && |cert| < 0x8000_0000 && |mark| < 0x8000_0000
    ensures var sec := WriteBytes(policy) + WriteBytes(cert) + WriteBytes(mark);
            ReadSecHeader(channel + sec + post) == Ok(SecHeader(cert, mark, 4 + |sec|))
  {
    hide LE32, U32, ReadBytes;
    var a, b, c := WriteBytes(policy), WriteBytes(cert), WriteBytes(mark);
    var payload := channel + (a + b + c) + post;
    assert payload == channel + a + (b + c + post);
    ReadWritten(channel, policy, b + c + post);
    assert payload == (channel + a) + b + (c + post);
    ReadWritten(channel + a, cert, c + post);
    assert payload == (channel + a + b) + c + post;
    ReadWritten(channel + a + b, mark, post);
  }

  // The padding of every permitted key fits its field.
  lemma PaddingFits(bits: nat, dataLen: nat, sigSize: nat)
    requires MIN_KEY_BITS <= bits <= 8 * 65536
    ensures PlainBlock(bits) > 0
    ensures PadCount(dataLen, sigSize, PlainBlock(bits), Extra(bits)) < Limit(Extra(bits))
  {
    PaddedWhole(dataLen, sigSize, PlainBlock(bits), Extra(bits));
  }

  lemma OpenSigned(a: Party, b: Party, covered: Bytes, seqNum: nat, reqId: nat, body: Bytes)
    requires Mirror(a, b) && MIN_KEY_BITS <= a.peer.bits <= 8 * 65536
    ensures PlainBlock(a.peer.bits) > 0
    ensures var plain := AsymPlain(a, seqNum, reqId, body);
            OpenAsym(b, covered, plain + a.own.sign(covered + plain)) == Ok(body)
  {
    hide Field, PadCount, Strip, SequenceHeader;
    var extra := Extra(a.peer.bits);
    PaddingFits(a.peer.bits, 8 + |body|, Size(a.own.bits));
    var n := PadCount(8 + |body|, Size(a.own.bits), PlainBlock(a.peer.bits), extra);
    var plain := AsymPlain(a, seqNum, reqId, body);
    var sig := a.own.sign(covered + plain);
    assert (plain + sig)[..|plain|] == plain && (plain + sig)[|plain|..] == sig;
    assert (plain + sig)[8..|plain|] == body + Field(n, extra);
    StripInvertsIff(body, n, extra);
  }

  // The encrypted part: whole blocks, of the announced length, and the receiver gets the plaintext back.
  lemma AsymEncrypted(a: Party, b: Party, signed: Bytes, seqNum: nat, reqId: nat, body: Bytes, rnd: nat -> Bytes)
    requires Mirror(a, b) && PlainBlock(a.peer.bits) > 0
    ensures var plain := AsymPlain(a, seqNum, reqId, body) + a.own.sign(signed);
            var enc := OaepEncrypt(a.peer, plain, rnd);
            && enc.Ok? && |enc.value| == |plain| / PlainBlock(a.peer.bits) * Size(a.peer.bits)
            && OaepDecrypt(b.own, enc.value) == Ok(plain)
            && |plain| == |AsymPlain(a, seqNum, reqId, body)| + Size(a.own.bits)
  {
    hide Field, PadCount, SequenceHeader, EncryptBlocks, DecryptBlocks;
    var block := PlainBlock(a.peer.bits);
    PaddedWhole(8 + |body|, Size(a.own.bits), block, Extra(a.peer.bits));
    var plain := AsymPlain(a, seqNum, reqId, body) + a.own.sign(signed);
    assert |plain| % block == 0;
    BlocksRoundTrip(a.peer, b.own, plain, rnd);
    ShorterByBlock(|plain|, block);
    Multiples(|plain| / block, Size(a.peer.bits));
  }

  // Main theorem, OPN chunks: for every body, keys of at least 2048 bits, randomness and whatever follows on the
  // stream, the mirrored receiver reads one chunk of exactly the written length and recovers exactly the body.
  lemma AsymRoundTrip(a: Party, b: Party, msgType: Bytes, policy: Bytes, thumb: Bytes -> Bytes, channel: nat, seqNum: nat,
                      reqId: nat, body: Bytes, rnd: nat -> Bytes, rest: Bytes)
    requires Mirror(a, b) && |msgType| == 3 && MIN_KEY_BITS <= a.peer.bits <= 8 * 65536 && MIN_KEY_BITS <= a.own.bits
    requires |policy| < 0x8000_0000 && |a.cert| < 0x8000_0000 && |thumb(b.cert)| == 20
    requires PlainBlock(a.peer.bits) > 0
    requires var c := AsymChunk(a, msgType, policy, thumb, channel, seqNum, reqId, body, rnd);
             c.Ok? ==> |c.value| < 0x1_0000_0000
    ensures var c := AsymChunk(a, msgType, policy, thumb, channel, seqNum, reqId, body, rnd);
            && c.Ok?
            && var r := ReadChunk(c.value + rest);
               && r.Ok? && r.value.msgType == msgType && r.value.rest == rest
               && DecodeAsym(b, thumb, r.value.hdr, r.value.payload) == Ok(body)
  {
    hide Field, PadCount, AsymPlain, OaepEncrypt, OaepDecrypt, ChunkHeader, LE32, U32, ReadSecHeader, OpenAsym, ReadChunk, WriteBytes, Pair;
    var sec := AsymSecHeader(a, policy, thumb);
    var plain := AsymPlain(a, seqNum, reqId, body);
    var hdr := AsymHeader(a, msgType, sec, plain, channel);
    var signed := hdr + sec + plain;
    AsymEncrypted(a, b, signed, seqNum, reqId, body, rnd);
    var enc := OaepEncrypt(a.peer, plain + a.own.sign(signed), rnd).value;
    var size := 12 + |sec| + |enc|;
    HeaderParts(msgType, size, channel);
    assert hdr + sec + enc + rest == hdr + (sec + enc) + rest;
    ReadBack(msgType, size, channel, sec + enc, rest);
    var payload := LE32(channel) + (sec + enc);
    assert payload == LE32(channel) + sec + enc;
    SecHeaderRead(LE32(channel), policy, a.cert, thumb(a.peerCert), enc);
    assert payload[4 + |sec|..] == enc;
    assert hdr[..8] + payload[..4 + |sec|] == hdr + sec;
    OpenSigned(a, b, hdr + sec, seqNum, reqId, body);
  }

  // ----- symmetric chunks -----------------------------------------------------------------------------------

  datatype Suite = Suite(hmac: (Bytes, Bytes) -> Bytes, aesEncrypt: (Bytes, Bytes, Bytes) -> Bytes,
                         aesDecrypt: (Bytes, Bytes, Bytes) -> Bytes)

  ghost predicate SuiteLaws(s: Suite) {
    && (forall k, d :: |s.hmac(k, d)| == HMAC_SIZE)
    && (forall k, iv, d :: |k| == AES_KEY && |iv| == AES_BLOCK && |d| % AES_BLOCK == 0 ==>
          |s.aesEncrypt(k, iv, d)| == |d| && s.aesDecrypt(k, iv, s.aesEncrypt(k, iv, d)) == d)
  }

  lemma HmacLaw(s: Suite, k: Bytes, d: Bytes)
    requires SuiteLaws(s)
    ensures |s.hmac(k, d)| == 32
  {
  }

  lemma AesLaw(s: Suite, k: Bytes, iv: Bytes, d: Bytes)
    requires SuiteLaws(s) && |k| == 32 && |iv| == 16 && |d| % 16 == 0
    ensures |s.aesEncrypt(k, iv, d)| == |d| && s.aesDecrypt(k, iv, s.aesEncrypt(k, iv, d)) == d
  {
  }

  datatype KeySet = KeySet(signing: Bytes, encrypting: Bytes, iv: Bytes)

  // AES keys of 128, 192 and 256 bits are accepted.
  predicate CbcUsable(k: KeySet, data: Bytes) {
    (|k.encrypting| == 16 || |k.encrypting| == 24 || |k.encrypting| == 32) && |k.iv| == AES_BLOCK && |data| % AES_BLOCK == 0
  }

  function CbcEncrypt(s: Suite, k: KeySet, plain: Bytes): Result<Bytes> {
    if CbcUsable(k, plain) then Ok(s.aesEncrypt(k.encrypting, k.iv, plain)) else Err
  }

  function CbcDecrypt(s: Suite, k: KeySet, cipher: Bytes): Result<Bytes> {
    if CbcUsable(k, cipher) && cipher != [] then Ok(s.aesDecrypt(k.encrypting, k.iv, cipher)) else Err
  }

  // Only encrypted chunks are padded.
  function SymPad(encrypt: bool, bodyLen: nat): Bytes {
    if encrypt then Field(PadCount(8 + bodyLen, HMAC_SIZE, AES_BLOCK, false), false) else []
  }

  function SymPlain(encrypt: bool, seqNum: nat, reqId: nat, body: Bytes): Bytes {
    SequenceHeader(seqNum, reqId) + body + SymPad(encrypt, |body|)
  }

  function SymChunk(s: Suite, k: KeySet, encrypt: bool, msgType: Bytes, channel: nat, token: nat, seqNum: nat, reqId: nat,
                    body: Bytes): Result<Bytes> {
    var plain := SymPlain(encrypt, seqNum, reqId, body);
    var hdr := ChunkHeader(msgType, 12 + 4 + |plain| + HMAC_SIZE, channel);
    var data := plain + s.hmac(k.signing, hdr + LE32(token) + plain);
    if !encrypt then Ok(hdr + LE32(token) + data) else
    var enc := CbcEncrypt(s, k, data);
    if enc.Err? then Err else Ok(hdr + LE32(token) + enc.value)
  }

  function DecodeSym(s: Suite, k: KeySet, encrypted: bool, hdr: Bytes, payload: Bytes): Result<Bytes> {
    if |payload| < 8 then Err else
    var data := if encrypted then CbcDecrypt(s, k, payload[8..]) else Ok(payload[8..]);
    if data.Err? then Err else OpenSym(s, k, encrypted, hdr + payload[..8], data.value)
  }

  function OpenSym(s: Suite, k: KeySet, encrypted: bool, covered: Bytes, data: Bytes): Result<Bytes> {
    if |data| < 8 + HMAC_SIZE then Err else
    var signedLen := |data| - HMAC_SIZE;
    if s.hmac(k.signing, covered + data[..signedLen]) != data[signedLen..] then Err
    else if encrypted then Strip(data[8..signedLen], false) else Ok(data[8..signedLen])
  }

  lemma OpenSymSigned(s: Suite, k: KeySet, encrypt: bool, covered: Bytes, seqNum: nat, reqId: nat, body: Bytes)
    requires SuiteLaws(s)
    ensures var plain := SymPlain(encrypt, seqNum, reqId, body);
            OpenSym(s, k, encrypt, covered, plain + s.hmac(k.signing, covered + plain)) == Ok(body)
  {
    hide Field, PadCount, Strip, SequenceHeader, SuiteLaws;
    var plain := SymPlain(encrypt, seqNum, reqId, body);
    var sig := s.hmac(k.signing, covered + plain);
    HmacLaw(s, k.signing, covered + plain);
    assert (plain + sig)[..|plain|] == plain && (plain + sig)[|plain|..] == sig;
    assert (plain + sig)[8..|plain|] == body + SymPad(encrypt, |body|);
    PaddedWhole(8 + |body|, HMAC_SIZE, AES_BLOCK, false);
    StripInvertsIff(body, PadCount(8 + |body|, HMAC_SIZE, AES_BLOCK, false), false);
    assert body + [] == body;
  }

  // What follows the token: whole AES blocks when encrypted, always of the announced length, and recoverable.
  lemma SymEncrypted(s: Suite, k: KeySet, signed: Bytes, seqNum: nat, reqId: nat, body: Bytes)
    requires SuiteLaws(s) && |k.encrypting| == AES_KEY && |k.iv| == AES_BLOCK
    ensures var data := SymPlain(true, seqNum, reqId, body) + s.hmac(k.signing, signed);
            var enc := CbcEncrypt(s, k, data);
            && enc.Ok? && |enc.value| == |data| && |data| % AES_BLOCK == 0
            && CbcDecrypt(s, k, enc.value) == Ok(data)
  {
    hide Field, PadCount, SequenceHeader, SuiteLaws;
    PaddedWhole(8 + |body|, HMAC_SIZE, AES_BLOCK, false);
    var data := SymPlain(true, seqNum, reqId, body) + s.hmac(k.signing, signed);
    HmacLaw(s, k.signing, signed);
    AesLaw(s, k.encrypting, k.iv, data);
  }

  // Main theorem, MSG and CLO chunks, signed or signed and encrypted: for every body and whatever follows on the
  // stream, a receiver with the same keys reads one chunk of exactly the written length and recovers exactly the body.
  lemma SymRoundTrip(s: Suite, k: KeySet, encrypt: bool, msgType: Bytes, channel: nat, token: nat, seqNum: nat, reqId: nat,
                     body: Bytes, rest: Bytes)
    requires SuiteLaws(s) && |k.encrypting| == AES_KEY && |k.iv| == AES_BLOCK && |msgType| == 3
    requires |SymPlain(encrypt, seqNum, reqId, body)| + 48 < 0x1_0000_0000
    ensures var c := SymChunk(s, k, encrypt, msgType, channel, token, seqNum, reqId, body);
            && c.Ok? && |c.value| == |SymPlain(encrypt, seqNum, reqId, body)| + 48
            && var r := ReadChunk(c.value + rest);
               && r.Ok? && r.value.msgType == msgType && r.value.rest == rest
               && DecodeSym(s, k, encrypt, r.value.hdr, r.value.payload) == Ok(body)
  {
    hide SymPlain, ChunkHeader, LE32, ReadChunk, OpenSym, CbcEncrypt, CbcDecrypt, SuiteLaws;
    var plain := SymPlain(encrypt, seqNum, reqId, body);
    var size := 12 + 4 + |plain| + HMAC_SIZE;
    var hdr := ChunkHeader(msgType, size, channel);
    var covered := hdr + LE32(token);
    var data := plain + s.hmac(k.signing, covered + plain);
    HmacLaw(s, k.signing, covered + plain);
    SymEncrypted(s, k, covered + SymPlain(true, seqNum, reqId, body), seqNum, reqId, body);
    HeaderParts(msgType, size, channel);
    var sent := if encrypt then CbcEncrypt(s, k, data).value else data;
    assert hdr + LE32(token) + sent + rest == hdr + (LE32(token) + sent) + rest;
    ReadBack(msgType, size, channel, LE32(token) + sent, rest);
    var payload := LE32(channel) + (LE32(token) + sent);
    assert payload[8..] == sent;
    assert hdr[..8] + payload[..8] == covered;
    OpenSymSigned(s, k, encrypt, covered, seqNum, reqId, body);
  }

  // ----- what a receiver accepts ------------------------------------------------------------------------------

  // Decrypted data of a symmetric chunk: eight bytes, the body, its padding field if encrypted, and the MAC of the
  // covered header and all of these.
  ghost predicate SymForm(s: Suite, k: KeySet, encrypted: bool, covered: Bytes, data: Bytes, body: Bytes) {
    exists head, pad: Bytes ::
      && |head| == 8 && (if encrypted then exists n: nat :: n < 256 && pad == Field(n, false) else pad == [])
      && data == head + body + pad + s.hmac(k.signing, covered + (head + body + pad))
  }

  lemma PartsJoined(head: Bytes, body: Bytes, pad: Bytes, sig: Bytes)
    requires |head| == 8
    ensures var plain := head + body + pad;
            var data := plain + sig;
            data[..|plain|] == plain && data[|plain|..] == sig && data[8..|plain|] == body + pad
  {
  }

  lemma PartsSplit(data: Bytes, signed: nat, body: Bytes, pad: Bytes)
    requires 8 <= signed <= |data| && data[8..signed] == body + pad
    ensures data[..signed] == data[..8] + body + pad && data == data[..8] + body + pad + data[signed..]
  {
    assert data[..signed] == data[..8] + data[8..signed];
    assert data == data[..signed] + data[signed..];
  }

  lemma OpenSymAccepts(s: Suite, k: KeySet, encrypted: bool, covered: Bytes, head: Bytes, body: Bytes, pad: Bytes, n: nat)
    requires SuiteLaws(s) && |head| == 8 && pad == (if encrypted then Field(n, false) else []) && n < 256
    ensures var plain := head + body + pad; OpenSym(s, k, encrypted, covered, plain + s.hmac(k.signing, covered + plain)) == Ok(body)
  {
    hide SuiteLaws, Field, Strip;
    var plain := head + body + pad;
    HmacLaw(s, k.signing, covered + plain);
    PartsJoined(head, body, pad, s.hmac(k.signing, covered + plain));
    StripInvertsIff(body, n, false);
    assert body + [] == body;
  }

  lemma OpenSymRefuses(s: Suite, k: KeySet, encrypted: bool, covered: Bytes, data: Bytes, body: Bytes)
    requires OpenSym(s, k, encrypted, covered, data) == Ok(body)
    ensures SymForm(s, k, encrypted, covered, data, body)
  {
    hide Field, Strip;
    var signed := |data| - HMAC_SIZE;
    if encrypted {
      StripExact(data[8..signed], false, body);
      var n: nat :| n < 256 && data[8..signed] == body + Field(n, false);
      PartsSplit(data, signed, body, Field(n, false));
      assert data == data[..8] + body + Field(n, false) + s.hmac(k.signing, covered + (data[..8] + body + Field(n, false)));
    } else {
      assert data[8..signed] == body + [];
      PartsSplit(data, signed, body, []);
      assert data == data[..8] + body + [] + s.hmac(k.signing, covered + (data[..8] + body + []));
    }
  }

  lemma OpenSymExact(s: Suite, k: KeySet, encrypted: bool, covered: Bytes, data: Bytes, body: Bytes)
    requires SuiteLaws(s)
    ensures OpenSym(s, k, encrypted, covered, data) == Ok(body) <==> SymForm(s, k, encrypted, covered, data, body)
  {
    hide SuiteLaws, Field, OpenSym;
    if OpenSym(s, k, encrypted, covered, data) == Ok(body) { OpenSymRefuses(s, k, encrypted, covered, data, body); }
    if SymForm(s, k, encrypted, covered, data, body) {
      var head, pad: Bytes :| && |head| == 8
                              && (if encrypted then exists n: nat :: n < 256 && pad == Field(n, false) else pad == [])
                              && data == head + body + pad + s.hmac(k.signing, covered + (head + body + pad));
      if encrypted {
        var n: nat :| n < 256 && pad == Field(n, false);
        OpenSymAccepts(s, k, encrypted, covered, head, body, pad, n);
      } else {
        OpenSymAccepts(s, k, encrypted, covered, head, body, pad, 0);
      }
    }
  }

  // A MSG or CLO chunk is accepted, and yields this body, exactly when it is long enough, decrypts (to whole AES
  // blocks under a usable key) and what it decrypts to has that form.
  lemma DecodeSymExact(s: Suite, k: KeySet, encrypted: bool, hdr: Bytes, payload: Bytes, body: Bytes)
    requires SuiteLaws(s)
    ensures DecodeSym(s, k, encrypted, hdr, payload) == Ok(body) <==>
              && |payload| >= 8
              && (encrypted ==> |payload| > 8 && (|payload| - 8) % 16 == 0 && |k.iv| == 16 && |k.encrypting| in {16, 24, 32})
              && SymForm(s, k, encrypted, hdr + payload[..8],
                         if encrypted then s.aesDecrypt(k.encrypting, k.iv, payload[8..]) else payload[8..], body)
  {
    hide SuiteLaws, OpenSym, SymForm;
    if |payload| >= 8 {
      var data := if encrypted then s.aesDecrypt(k.encrypting, k.iv, payload[8..]) else payload[8..];
      OpenSymExact(s, k, encrypted, hdr + payload[..8], data, body);
    }
  }

  // The same for a decrypted OPN chunk: padding by the size of the receiver's key, a signature that verifies under
  // the sender's.
  ghost predicate AsymForm(p: Party, extra: bool, covered: Bytes, plain: Bytes, body: Bytes) {
    exists head, sig: Bytes, n: nat ::
      && |head| == 8 && |sig| == Size(p.peer.bits) && n < Limit(extra)
      && plain == head + body + Field(n, extra) + sig
      && p.peer.verify(covered + (head + body + Field(n, extra)), sig)
  }

  lemma OpenAsymAccepts(p: Party, covered: Bytes, head: Bytes, body: Bytes, n: nat, sig: Bytes)
    requires |head| == 8 && |sig| == Size(p.peer.bits) && n < Limit(Extra(p.own.bits))
    requires p.peer.verify(covered + (head + body + Field(n, Extra(p.own.bits))), sig)
    ensures OpenAsym(p, covered, head + body + Field(n, Extra(p.own.bits)) + sig) == Ok(body)
  {
    hide Field, Strip, Limit, Size, Extra;
    var extra := Extra(p.own.bits);
    PartsJoined(head, body, Field(n, extra), sig);
    StripInvertsIff(body, n, extra);
  }

  lemma OpenAsymRefuses(p: Party, covered: Bytes, plain: Bytes, body: Bytes)
    requires OpenAsym(p, covered, plain) == Ok(body)
    ensures AsymForm(p, Extra(p.own.bits), covered, plain, body)
  {
    hide Field, Strip, Limit, Size, Extra;
    var extra := Extra(p.own.bits);
    var signed := |plain| - Size(p.peer.bits);
    StripExact(plain[8..signed], extra, body);
    var n: nat :| n < Limit(extra) && plain[8..signed] == body + Field(n, extra);
    PartsSplit(plain, signed, body, Field(n, extra));
    var head, sig := plain[..8], plain[signed..];
    assert p.peer.verify(covered + (head + body + Field(n, extra)), sig);
  }

  lemma OpenAsymExact(p: Party, covered: Bytes, plain: Bytes, body: Bytes)
    ensures OpenAsym(p, covered, plain) == Ok(body) <==> AsymForm(p, Extra(p.own.bits), covered, plain, body)
  {
    hide Field, Limit, Size, Extra, OpenAsym;
    var extra := Extra(p.own.bits);
    if OpenAsym(p, covered, plain) == Ok(body) { OpenAsymRefuses(p, covered, plain, body); }
    if AsymForm(p, Extra(p.own.bits), covered, plain, body) {
      var head, sig: Bytes, n: nat :| && |head| == 8 && |sig| == Size(p.peer.bits) && n < Limit(extra)
                                      && plain == head + body + Field(n, extra) + sig
                                      && p.peer.verify(covered + (head + body + Field(n, extra)), sig);
      OpenAsymAccepts(p, covered, head, body, n, sig);
    }
  }

  // A length-prefixed string that reads as v; a length of zero, or with its top bit set, stands for the empty string.
  predicate StringField(f: Bytes, v: Bytes) {
    && |f| >= 4
    && var n := U32(f[..4]);
       if n == 0 || n >= 0x8000_0000 then |f| == 4 && v == [] else f[4..] == v && |v| == n
  }

  lemma ReadBytesExact(b: Bytes, off: nat, v: Bytes, end: nat)
    ensures ReadBytes(b, off) == Ok(Read(v, end)) <==> off <= end <= |b| && StringField(b[off..end], v)
  {
    hide U32;
    if off + 4 <= |b| {
      if off <= end <= |b| && end - off >= 4 {
        assert b[off..end][..4] == b[off..off + 4];
        assert b[off..end][4..] == b[off + 4..end];
      }
    }
  }

  // The security header of an OPN chunk after the channel id: policy, sender certificate, receiver thumbprint.
  ghost predicate SecForm(payload: Bytes, cert: Bytes, mark: Bytes, end: nat) {
    exists policy: Bytes, a: nat, b: nat ::
      && 4 <= a <= b <= end <= |payload|
      && StringField(payload[4..a], policy) && StringField(payload[a..b], cert) && StringField(payload[b..end], mark)
  }

  lemma SecHeaderExact(payload: Bytes, cert: Bytes, mark: Bytes, end: nat)
    ensures ReadSecHeader(payload) == Ok(SecHeader(cert, mark, end)) <==> SecForm(payload, cert, mark, end)
  {
    hide ReadBytes, StringField;
    if ReadSecHeader(payload) == Ok(SecHeader(cert, mark, end)) {
      var policy := ReadBytes(payload, 4).value;
      ReadBytesExact(payload, 4, policy.value, policy.off);
      var c := ReadBytes(payload, policy.off).value;
      ReadBytesExact(payload, policy.off, c.value, c.off);
      ReadBytesExact(payload, c.off, mark, end);
    }
    if SecForm(payload, cert, mark, end) {
      var policy: Bytes, a: nat, b: nat :| && 4 <= a <= b <= end <= |payload|
                                           && StringField(payload[4..a], policy) && StringField(payload[a..b], cert)
                                           && StringField(payload[b..end], mark);
      ReadBytesExact(payload, 4, policy, a);
      ReadBytesExact(payload, a, cert, b);
      ReadBytesExact(payload, b, mark, end);
    }
  }

  // An OPN chunk is accepted, and yields this body, exactly when its security header names the receiver (or nobody)
  // and starts with the sender's certificate (or has none), the rest decrypts, and what it decrypts to has that form.
  lemma DecodeAsymExact(p: Party, thumb: Bytes -> Bytes, hdr: Bytes, payload: Bytes, body: Bytes)
    ensures DecodeAsym(p, thumb, hdr, payload) == Ok(body) <==>
              exists cert, mark: Bytes, end: nat ::
                && SecForm(payload, cert, mark, end) && end <= |payload|
                && (mark == [] || mark == thumb(p.cert)) && (cert == [] || p.peerCert <= cert)
                && var plain := OaepDecrypt(p.own, payload[end..]);
                   plain.Ok? && AsymForm(p, p.own.bits > 2048, hdr + payload[..end], plain.value, body)
  {
    hide ReadSecHeader, OpenAsym, AsymForm, SecForm, OaepDecrypt;
    if DecodeAsym(p, thumb, hdr, payload) == Ok(body) {
      var h := ReadSecHeader(payload).value;
      SecHeaderExact(payload, h.cert, h.thumb, h.end);
      OpenAsymExact(p, hdr + payload[..h.end], OaepDecrypt(p.own, payload[h.end..]).value, body);
    }
    forall cert, mark: Bytes, end: nat |
      && SecForm(payload, cert, mark, end) && end <= |payload|
      && (mark == [] || mark == thumb(p.cert)) && (cert == [] || p.peerCert <= cert)
      && (var plain := OaepDecrypt(p.own, payload[end..]);
          plain.Ok? && AsymForm(p, p.own.bits > 2048, hdr + payload[..end], plain.value, body))
      ensures DecodeAsym(p, thumb, hdr, payload) == Ok(body)
    {
      SecHeaderExact(payload, cert, mark, end);
      OpenAsymExact(p, hdr + payload[..end], OaepDecrypt(p.own, payload[end..]).value, body);
    }
  }

  // A chunk is read exactly when the stream starts with eight header bytes and as many more as they announce.
  lemma ReadChunkExact(wire: Bytes, c: Chunk)
    ensures ReadChunk(wire) == Ok(c) <==>
              |c.hdr| == 8 && wire == c.hdr + c.payload + c.rest && c.msgType == c.hdr[..3] && U32(c.hdr[4..8]) == 8 + |c.payload|
  {
    hide U32;
    if ReadChunk(wire) == Ok(c) {
      assert wire[..8][4..8] == wire[4..8] && wire[..8][..3] == wire[..3];
      assert wire == c.hdr + c.payload + c.rest;
    }
    if |c.hdr| == 8 && wire == c.hdr + c.payload + c.rest && c.msgType == c.hdr[..3] && U32(c.hdr[4..8]) == 8 + |c.payload| {
      assert wire[4..8] == c.hdr[4..8] && wire[..3] == c.hdr[..3] && wire[..8] == c.hdr;
      assert wire[8..8 + |c.payload|] == c.payload && wire[8 + |c.payload|..] == c.rest;
    }
  }

  // ----- the wire format ------------------------------------------------------------------------------------

  predicate Word(n: nat) { n < 0x1_0000_0000 }

  // Message type, final-chunk marker, length and channel of a chunk.
  ghost predicate Headed(c: Bytes, msgType: Bytes, channel: nat) {
    |c| >= 12 && c[..3] == msgType && c[3] == 70 && U32(c[4..8]) == |c| && U32(c[8..12]) == channel
  }

  // Sequence number and request id, at the start of what is signed.
  ghost predicate Numbered(data: Bytes, seqNum: nat, reqId: nat) {
    |data| >= 8 && U32(data[..4]) == seqNum && U32(data[4..8]) == reqId
  }

  lemma HeadedBy(msgType: Bytes, channel: nat, tail: Bytes)
    requires |msgType| == 3 && Word(channel) && Word(12 + |tail|)
    ensures Headed(ChunkHeader(msgType, 12 + |tail|, channel) + tail, msgType, channel)
  {
    hide LE32, U32;
    var c := ChunkHeader(msgType, 12 + |tail|, channel) + tail;
    LE32RoundTrip(12 + |tail|);
    LE32RoundTrip(channel);
    assert c[4..8] == LE32(12 + |tail|) && c[8..12] == LE32(channel) && c[..3] == msgType;
  }

  lemma NumberedBy(seqNum: nat, reqId: nat, tail: Bytes)
    requires Word(seqNum) && Word(reqId)
    ensures Numbered(SequenceHeader(seqNum, reqId) + tail, seqNum, reqId)
  {
    hide LE32, U32;
    var data := SequenceHeader(seqNum, reqId) + tail;
    LE32RoundTrip(seqNum);
    LE32RoundTrip(reqId);
    assert data[..4] == LE32(seqNum) && data[4..8] == LE32(reqId);
  }

  // Where everything stands in a MSG or CLO chunk.
  lemma SymLayout(s: Suite, k: KeySet, encrypt: bool, msgType: Bytes, channel: nat, token: nat, seqNum: nat, reqId: nat, body: Bytes)
    requires SuiteLaws(s) && |k.encrypting| == AES_KEY && |k.iv| == AES_BLOCK && |msgType| == 3
    requires |SymPlain(encrypt, seqNum, reqId, body)| + 48 < 0x1_0000_0000
    requires Word(channel) && Word(token) && Word(seqNum) && Word(reqId)
    ensures var c := SymChunk(s, k, encrypt, msgType, channel, token, seqNum, reqId, body);
            && c.Ok? && Headed(c.value, msgType, channel) && |c.value| >= 16 && U32(c.value[12..16]) == token
            && Numbered(if encrypt then s.aesDecrypt(k.encrypting, k.iv, c.value[16..]) else c.value[16..], seqNum, reqId)
  {
    hide ChunkHeader, LE32, U32, SymPlain, SuiteLaws, Headed, Numbered;
    var plain := SymPlain(encrypt, seqNum, reqId, body);
    var hdr := ChunkHeader(msgType, 12 + 4 + |plain| + HMAC_SIZE, channel);
    var mac := s.hmac(k.signing, hdr + LE32(token) + plain);
    HmacLaw(s, k.signing, hdr + LE32(token) + plain);
    SymEncrypted(s, k, hdr + LE32(token) + SymPlain(true, seqNum, reqId, body), seqNum, reqId, body);
    var sent := if encrypt then s.aesEncrypt(k.encrypting, k.iv, plain + mac) else plain + mac;
    var c := SymChunk(s, k, encrypt, msgType, channel, token, seqNum, reqId, body).value;
    assert c == hdr + (LE32(token) + sent);
    HeadedBy(msgType, channel, LE32(token) + sent);
    HeaderParts(msgType, 12 + 4 + |plain| + HMAC_SIZE, channel);
    LE32RoundTrip(token);
    assert c[12..16] == LE32(token) && c[16..] == sent;
    SymNumbered(encrypt, seqNum, reqId, body, mac);
  }

  lemma SymNumbered(encrypt: bool, seqNum: nat, reqId: nat, body: Bytes, mac: Bytes)
    requires Word(seqNum) && Word(reqId)
    ensures Numbered(SymPlain(encrypt, seqNum, reqId, body) + mac, seqNum, reqId)
  {
    hide SymPad, SequenceHeader, Numbered;
    var tail := body + SymPad(encrypt, |body|) + mac;
    assert SymPlain(encrypt, seqNum, reqId, body) + mac == SequenceHeader(seqNum, reqId) + tail;
    NumberedBy(seqNum, reqId, tail);
  }

  // Where everything stands in an OPN chunk: after the header the policy, the sender's certificate and the
  // thumbprint of the receiver's, then what the receiver decrypts.
  lemma AsymLayout(a: Party, b: Party, msgType: Bytes, policy: Bytes, thumb: Bytes -> Bytes, channel: nat, seqNum: nat,
                   reqId: nat, body: Bytes, rnd: nat -> Bytes)
    requires Mirror(a, b) && |msgType| == 3 && PlainBlock(a.peer.bits) > 0
    requires |policy| < 0x8000_0000 && |a.cert| < 0x8000_0000 && |thumb(b.cert)| < 0x8000_0000
    requires Word(channel) && Word(seqNum) && Word(reqId)
    requires var c := AsymChunk(a, msgType, policy, thumb, channel, seqNum, reqId, body, rnd);
             c.Ok? ==> |c.value| < 0x1_0000_0000
    ensures var c := AsymChunk(a, msgType, policy, thumb, channel, seqNum, reqId, body, rnd);
            && c.Ok? && Headed(c.value, msgType, channel)
            && var sec := WriteBytes(policy) + WriteBytes(a.cert) + WriteBytes(thumb(b.cert));
               && 12 + |sec| <= |c.value| && c.value[12..12 + |sec|] == sec
               && var plain := OaepDecrypt(b.own, c.value[12 + |sec|..]);
                  plain.Ok? && Numbered(plain.value, seqNum, reqId)
  {
    hide ChunkHeader, LE32, U32, Field, PadCount, SequenceHeader, Headed, Numbered, OaepEncrypt, OaepDecrypt, WriteBytes;
    var sec := AsymSecHeader(a, policy, thumb);
    var plain := AsymPlain(a, seqNum, reqId, body);
    var hdr := AsymHeader(a, msgType, sec, plain, channel);
    var sig := a.own.sign(hdr + sec + plain);
    AsymEncrypted(a, b, hdr + sec + plain, seqNum, reqId, body, rnd);
    var enc := OaepEncrypt(a.peer, plain + sig, rnd).value;
    var c := AsymChunk(a, msgType, policy, thumb, channel, seqNum, reqId, body, rnd).value;
    assert c == hdr + (sec + enc);
    HeaderParts(msgType, 12 + |sec| + |enc|, channel);
    HeadedBy(msgType, channel, sec + enc);
    assert c[12..12 + |sec|] == sec && c[12 + |sec|..] == enc;
    var tail := plain[8..] + sig;
    assert plain + sig == SequenceHeader(seqNum, reqId) + tail;
    NumberedBy(seqNum, reqId, tail);
  }

  // ----- a stream of chunks ---------------------------------------------------------------------------------

  function Next32(n: nat): nat { (n + 1) % 0x1_0000_0000 }

  // Messages written one after the other, the counters bumped before each.
  function SymStream(s: Suite, k: KeySet, encrypt: bool, msgType: Bytes, channel: nat, token: nat, seqNum: nat, reqId: nat,
                     bodies: seq<Bytes>): Bytes
    decreases |bodies|
  {
    if bodies == [] then [] else
    var c := SymChunk(s, k, encrypt, msgType, channel, token, Next32(seqNum), Next32(reqId), bodies[0]);
    (if c.Ok? then c.value else [])
    + SymStream(s, k, encrypt, msgType, channel, token, Next32(seqNum), Next32(reqId), bodies[1..])
  }

  function Written(c: Result<Bytes>): Bytes { if c.Ok? then c.value else [] }

  // The number after k more.
  function Later(n: nat, k: nat): nat { (n + k + 1) % 0x1_0000_0000 }

  lemma LaterNext(n: nat, k: nat)
    ensures Later(n, 0) == Next32(n) && Later(Next32(n), k) == Later(n, k + 1)
  {
    var m := n + 1;
    assert m == m / 0x1_0000_0000 * 0x1_0000_0000 + Next32(n);
    assert (Next32(n) + (k + 1) + m / 0x1_0000_0000 * 0x1_0000_0000) % 0x1_0000_0000 == (Next32(n) + (k + 1)) % 0x1_0000_0000;
  }

  lemma StreamUnfolds(s: Suite, k: KeySet, encrypt: bool, msgType: Bytes, channel: nat, token: nat, seqNum: nat, reqId: nat,
                      body: Bytes, rest: seq<Bytes>)
    ensures SymStream(s, k, encrypt, msgType, channel, token, seqNum, reqId, [body] + rest)
            == Written(SymChunk(s, k, encrypt, msgType, channel, token, Next32(seqNum), Next32(reqId), body))
               + SymStream(s, k, encrypt, msgType, channel, token, Next32(seqNum), Next32(reqId), rest)
    ensures SymStream(s, k, encrypt, msgType, channel, token, seqNum, reqId, []) == []
  {
    hide SymChunk, Next32;
    assert ([body] + rest)[1..] == rest;
  }

  // The chunk written after others carries the next sequence number and request id, counted modulo 2^32.
  lemma {:induction false} StreamAppend(s: Suite, k: KeySet, encrypt: bool, msgType: Bytes, channel: nat, token: nat,
                                        seqNum: nat, reqId: nat, bodies: seq<Bytes>, body: Bytes)
    ensures var q, r := (seqNum + |bodies| + 1) % 0x1_0000_0000, (reqId + |bodies| + 1) % 0x1_0000_0000;
            SymStream(s, k, encrypt, msgType, channel, token, seqNum, reqId, bodies + [body])
            == SymStream(s, k, encrypt, msgType, channel, token, seqNum, reqId, bodies)
               + Written(SymChunk(s, k, encrypt, msgType, channel, token, q, r, body))
    decreases |bodies|
  {
    hide SymChunk, SymStream, Next32, Written;
    var q, r, n := Next32(seqNum), Next32(reqId), |bodies|;
    if bodies == [] {
      LaterNext(seqNum, 0);
      LaterNext(reqId, 0);
      StreamUnfolds(s, k, encrypt, msgType, channel, token, seqNum, reqId, body, []);
      StreamUnfolds(s, k, encrypt, msgType, channel, token, q, r, body, []);
      assert [] + [body] == [body] + [];
    } else {
      var rest := bodies[1..];
      LaterNext(seqNum, n - 1);
      LaterNext(reqId, n - 1);
      StreamAppend(s, k, encrypt, msgType, channel, token, q, r, rest, body);
      StreamUnfolds(s, k, encrypt, msgType, channel, token, seqNum, reqId, bodies[0], rest);
      StreamUnfolds(s, k, encrypt, msgType, channel, token, seqNum, reqId, bodies[0], rest + [body]);
      assert bodies == [bodies[0]] + rest && bodies + [body] == [bodies[0]] + (rest + [body]);
    }
  }

  // The receiver reads chunks until the stream ends.
  function ReceiveAll(s: Suite, k: KeySet, encrypted: bool, wire: Bytes): Result<seq<Bytes>>
    decreases |wire|
  {
    if wire == [] then Ok([]) else
    var c := ReadChunk(wire);
    if c.Err? then Err else
    var body := DecodeSym(s, k, encrypted, c.value.hdr, c.value.payload);
    if body.Err? then Err else
    var more := ReceiveAll(s, k, encrypted, c.value.rest);
    if more.Err? then Err else Ok([body.value] + more.value)
  }

  // Any sequence of messages written to one connection is received as the same sequence: chunk boundaries, padding
  // and signatures never run into each other.
  lemma {:induction false} StreamRoundTrip(s: Suite, k: KeySet, encrypt: bool, msgType: Bytes, channel: nat, token: nat,
                                           seqNum: nat, reqId: nat, bodies: seq<Bytes>)
    requires SuiteLaws(s) && |k.encrypting| == AES_KEY && |k.iv| == AES_BLOCK && |msgType| == 3
    requires forall i :: 0 <= i < |bodies| ==> |bodies[i]| < 0xffff_0000
    ensures ReceiveAll(s, k, encrypt, SymStream(s, k, encrypt, msgType, channel, token, seqNum, reqId, bodies)) == Ok(bodies)
    decreases |bodies|
  {
    if bodies != [] {
      var q, r := Next32(seqNum), Next32(reqId);
      StreamRoundTrip(s, k, encrypt, msgType, channel, token, q, r, bodies[1..]);
      StreamStep(s, k, encrypt, msgType, channel, token, seqNum, reqId, bodies);
    }
  }

  lemma StreamFirst(s: Suite, k: KeySet, encrypt: bool, msgType: Bytes, channel: nat, token: nat, seqNum: nat, reqId: nat,
                    bodies: seq<Bytes>)
    requires bodies != []
    ensures var c := SymChunk(s, k, encrypt, msgType, channel, token, Next32(seqNum), Next32(reqId), bodies[0]);
            var rest := SymStream(s, k, encrypt, msgType, channel, token, Next32(seqNum), Next32(reqId), bodies[1..]);
            c.Ok? ==> SymStream(s, k, encrypt, msgType, channel, token, seqNum, reqId, bodies) == c.value + rest
  {
    hide SymChunk, Next32;
  }

  lemma StreamStep(s: Suite, k: KeySet, encrypt: bool, msgType: Bytes, channel: nat, token: nat, seqNum: nat, reqId: nat,
                   bodies: seq<Bytes>)
    requires SuiteLaws(s) && |k.encrypting| == AES_KEY && |k.iv| == AES_BLOCK && |msgType| == 3
    requires bodies != [] && |bodies[0]| < 0xffff_0000
    requires var rest := SymStream(s, k, encrypt, msgType, channel, token, Next32(seqNum), Next32(reqId), bodies[1..]);
             ReceiveAll(s, k, encrypt, rest) == Ok(bodies[1..])
    ensures ReceiveAll(s, k, encrypt, SymStream(s, k, encrypt, msgType, channel, token, seqNum, reqId, bodies)) == Ok(bodies)
  {
    hide *;
    StreamFirst(s, k, encrypt, msgType, channel, token, seqNum, reqId, bodies);
    var q, r := Next32(seqNum), Next32(reqId);
    var rest := SymStream(s, k, encrypt, msgType, channel, token, q, r, bodies[1..]);
    var c := SymChunk(s, k, encrypt, msgType, channel, token, q, r, bodies[0]);
    SymPlainLength(encrypt, q, r, bodies[0]);
    SymRoundTrip(s, k, encrypt, msgType, channel, token, q, r, bodies[0], rest);
    ReceiveOne(s, k, encrypt, c.value, rest, bodies[0]);
    assert bodies == [bodies[0]] + bodies[1..];
  }

  lemma ReceiveOne(s: Suite, k: KeySet, encrypted: bool, chunk: Bytes, rest: Bytes, body: Bytes)
    requires chunk != [] && var r := ReadChunk(chunk + rest);
             r.Ok? && r.value.rest == rest && DecodeSym(s, k, encrypted, r.value.hdr, r.value.payload) == Ok(body)
    requires ReceiveAll(s, k, encrypted, rest).Ok?
    ensures ReceiveAll(s, k, encrypted, chunk + rest) == Ok([body] + ReceiveAll(s, k, encrypted, rest).value)
  {
    hide ReadChunk, DecodeSym;
  }

  lemma SymPlainLength(encrypt: bool, seqNum: nat, reqId: nat, body: Bytes)
    ensures 8 + |body| <= |SymPlain(encrypt, seqNum, reqId, body)| <= 8 + |body| + 16
  {
    PaddedWhole(8 + |body|, HMAC_SIZE, AES_BLOCK, false);
  }

  // ----- key derivation -------------------------------------------------------------------------------------

  // A(0) is the seed, A(i) the MAC of A(i-1) (section 5 of RFC 5246).
  function Chain(s: Suite, secret: Bytes, seed: Bytes, i: nat): Bytes {
    if i == 0 then seed else s.hmac(secret, Chain(s, secret, seed, i - 1))
  }

  function HashBlocks(s: Suite, secret: Bytes, seed: Bytes, n: nat): Bytes {
    if n == 0 then [] else HashBlocks(s, secret, seed, n - 1) + s.hmac(secret, Chain(s, secret, seed, n) + seed)
  }

  lemma {:induction false} HashLength(s: Suite, secret: Bytes, seed: Bytes, n: nat)
    requires SuiteLaws(s)
    ensures |HashBlocks(s, secret, seed, n)| == 32 * n
  {
    hide SuiteLaws, Chain;
    if n > 0 {
      HashLength(s, secret, seed, n - 1);
      HmacLaw(s, secret, Chain(s, secret, seed, n) + seed);
    }
  }

  lemma {:induction false} HashPrefix(s: Suite, secret: Bytes, seed: Bytes, a: nat, b: nat)
    requires a <= b
    ensures HashBlocks(s, secret, seed, a) <= HashBlocks(s, secret, seed, b)
  {
    if a < b { HashPrefix(s, secret, seed, a, b - 1); }
  }

  // `out` is the first `length` bytes of the endless hash: whole blocks reach past it, and it is cut from them.
  ghost predicate IsPHash(s: Suite, secret: Bytes, seed: Bytes, length: int, out: Bytes) {
    && |out| == (if length > 0 then length else 0)
    && forall n: nat :: length <= 32 * n ==> out <= HashBlocks(s, secret, seed, n)
  }

  lemma PHashCut(s: Suite, secret: Bytes, seed: Bytes, length: nat, n: nat)
    requires SuiteLaws(s) && length <= |HashBlocks(s, secret, seed, n)|
    ensures IsPHash(s, secret, seed, length, HashBlocks(s, secret, seed, n)[..length])
  {
    hide SuiteLaws, HashBlocks;
    var out := HashBlocks(s, secret, seed, n)[..length];
    forall k: nat | length <= 32 * k ensures out <= HashBlocks(s, secret, seed, k) {
      HashLength(s, secret, seed, k);
      if n <= k { HashPrefix(s, secret, seed, n, k); } else { HashPrefix(s, secret, seed, k, n); }
    }
  }

  method PSha256(s: Suite, secret: Bytes, seed: Bytes, length: int) returns (out: Bytes)
    requires SuiteLaws(s)
    ensures IsPHash(s, secret, seed, length, out)
  {
    hide SuiteLaws;
    if length <= 0 { return []; }
    var a := seed;
    out := [];
    ghost var n := 0;
    while |out| < length
      invariant a == Chain(s, secret, seed, n) && out == HashBlocks(s, secret, seed, n)
      invariant |out| == 32 * n
      decreases length - |out|
    {
      HmacLaw(s, secret, s.hmac(secret, a) + seed);
      a := s.hmac(secret, a);
      out := out + s.hmac(secret, a + seed);
      n := n + 1;
    }
    PHashCut(s, secret, seed, length, n);
    return out[..length];
  }

  // The derived bytes do not depend on how many are asked for.
  lemma PHashPrefix(s: Suite, secret: Bytes, seed: Bytes, a: int, b: int, x: Bytes, y: Bytes)
    requires SuiteLaws(s) && a <= b && IsPHash(s, secret, seed, a, x) && IsPHash(s, secret, seed, b, y)
    ensures x <= y
  {
    var n := if b > 0 then b else 0;
    assert b <= 32 * n;
    assert x <= HashBlocks(s, secret, seed, n) && y <= HashBlocks(s, secret, seed, n);
  }

  datatype ChannelKeys = ChannelKeys(client: KeySet, server: KeySet)

  // Signing key, encrypting key, initialization vector: consecutive parts of 80 derived bytes.
  ghost predicate Splits(k: KeySet, s: Suite, secret: Bytes, seed: Bytes) {
    && |k.signing| == AES_KEY && |k.encrypting| == AES_KEY && |k.iv| == AES_BLOCK
    && IsPHash(s, secret, seed, 80, k.signing + k.encrypting + k.iv)
  }

  method DeriveChannelKeys(s: Suite, clientNonce: Bytes, serverNonce: Bytes) returns (k: ChannelKeys)
    requires SuiteLaws(s)
    ensures Splits(k.client, s, serverNonce, clientNonce) && Splits(k.server, s, clientNonce, serverNonce)
  {
    hide IsPHash;
    var c := PSha256(s, serverNonce, clientNonce, 80);
    var v := PSha256(s, clientNonce, serverNonce, 80);
    PHashLength(s, serverNonce, clientNonce, c);
    PHashLength(s, clientNonce, serverNonce, v);
    assert c == c[..32] + c[32..64] + c[64..];
    assert v == v[..32] + v[32..64] + v[64..];
    return ChannelKeys(KeySet(c[..32], c[32..64], c[64..]), KeySet(v[..32], v[32..64], v[64..]));
  }

  lemma PHashLength(s: Suite, secret: Bytes, seed: Bytes, x: Bytes)
    requires IsPHash(s, secret, seed, 80, x)
    ensures |x| == 80
  {
  }

  // Both ends derive the same keys from the two nonces, so what one writes the other reads.
  lemma DerivedKeysAgree(s: Suite, a: KeySet, b: KeySet, secret: Bytes, seed: Bytes)
    requires SuiteLaws(s) && Splits(a, s, secret, seed) && Splits(b, s, secret, seed)
    ensures a == b
  {
    var x, y := a.signing + a.encrypting + a.iv, b.signing + b.encrypting + b.iv;
    PHashPrefix(s, secret, seed, 80, 80, x, y);
    assert x == y;
    assert a.signing == x[..32] && a.encrypting == x[32..64] && a.iv == x[64..];
    assert b.signing == y[..32] && b.encrypting == y[32..64] && b.iv == y[64..];
  }

  // ----- the laws are consistent ----------------------------------------------------------------------------

  // Stand-ins without any strength that satisfy the laws: the theorems above are about something.
  function PlainPublic(bits: nat): PublicKey {
    PublicKey(bits, (m: Bytes, r: Bytes) => m + Repeat(0, OAEP_OVERHEAD), (m: Bytes, sig: Bytes) => true)
  }

  function PlainPrivate(bits: nat): PrivateKey {
    PrivateKey(bits, (c: Bytes) => if |c| < OAEP_OVERHEAD then Err else Ok(c[..|c| - OAEP_OVERHEAD]),
               (m: Bytes) => Repeat(0, Size(bits)))
  }

  lemma PairExists(bits: nat)
    requires bits >= MIN_KEY_BITS
    ensures Pair(PlainPublic(bits), PlainPrivate(bits))
  {
    var pub, priv := PlainPublic(bits), PlainPrivate(bits);
    forall m: Bytes, r: Bytes | |m| == PlainBlock(bits)
      ensures |pub.encrypt(m, r)| == Size(bits) && priv.decrypt(pub.encrypt(m, r)) == Ok(m)
    {
      assert (m + Repeat(0, OAEP_OVERHEAD))[..|m|] == m;
    }
  }

  const PLAIN_SUITE: Suite := Suite((k: Bytes, d: Bytes) => Repeat(0, HMAC_SIZE), (k: Bytes, iv: Bytes, d: Bytes) => d,
                                    (k: Bytes, iv: Bytes, d: Bytes) => d)

  lemma SuiteExists()
    ensures SuiteLaws(PLAIN_SUITE)
  {
  }

  // ----- the sending session --------------------------------------------------------------------------------

  class SecureSession {
    var seqNum: nat
    var reqId: nat
    var wire: Bytes
    const channel: nat
    const token: nat
    const party: Party
    const policy: Bytes
    const thumb: Bytes -> Bytes
    const suite: Suite
    const keys: KeySet
    const encrypt: bool

    constructor (party: Party, policy: Bytes, thumb: Bytes -> Bytes, suite: Suite, keys: KeySet, encrypt: bool, channel: nat, token: nat)
      ensures seqNum == 0 && reqId == 0 && wire == []
      ensures this.party == party && this.policy == policy && this.suite == suite && this.keys == keys && this.encrypt == encrypt
      ensures this.thumb == thumb && this.channel == channel && this.token == token
    {
      seqNum, reqId, wire := 0, 0, [];
      this.party, this.policy, this.thumb, this.suite, this.keys := party, policy, thumb, suite, keys;
      this.encrypt, this.channel, this.token := encrypt, channel, token;
    }

    // The chunk and security headers, and what is signed and encrypted.
    method AsymParts(msgType: Bytes, body: Bytes) returns (hdr: Bytes, sec: Bytes, plain: Bytes)
      requires PlainBlock(party.peer.bits) > 0
      ensures sec == AsymSecHeader(party, policy, thumb) && plain == AsymPlain(party, seqNum, reqId, body)
      ensures hdr == AsymHeader(party, msgType, sec, plain, channel)
    {
      hide Field, PadCount, LE32, ChunkHeader, SequenceHeader, WriteBytes, Size;
      sec := WriteBytes(policy) + WriteBytes(party.cert) + WriteBytes(thumb(party.peerCert));
      var seqHeader := SequenceHeader(seqNum, reqId);
      var cipherBlock := Size(party.peer.bits);
      var plainBlock := cipherBlock - OAEP_OVERHEAD;
      var sigSize := Size(party.own.bits);
      var pad := MessagePadding(|seqHeader| + |body|, sigSize, plainBlock, party.peer.bits > MIN_KEY_BITS);
      var plainLen := |seqHeader| + |body| + |pad| + sigSize;
      var encryptedLen := plainLen / plainBlock * cipherBlock;
      plain := seqHeader + body + pad;
      hdr := ChunkHeader(msgType, 12 + |sec| + encryptedLen, channel);
    }

    method WriteAsymmetricMessage(msgType: Bytes, body: Bytes, rnd: nat -> Bytes) returns (ok: bool)
      requires PlainBlock(party.peer.bits) > 0
      modifies this
      ensures seqNum == (old(seqNum) + 1) % 0x1_0000_0000 && reqId == (old(reqId) + 1) % 0x1_0000_0000
      ensures var c := AsymChunk(party, msgType, policy, thumb, channel, seqNum, reqId, body, rnd);
              ok == c.Ok? && wire == old(wire) + (if c.Ok? then c.value else [])
    {
      hide OaepEncrypt, AsymSecHeader, AsymPlain, AsymHeader, PlainBlock;
      seqNum, reqId := (seqNum + 1) % 0x1_0000_0000, (reqId + 1) % 0x1_0000_0000;
      var hdr, sec, plain := AsymParts(msgType, body);
      var sig := party.own.sign(hdr + sec + plain);
      var encrypted := RsaOaepEncrypt(party.peer, plain + sig, rnd);
      if encrypted.Err? { return false; }
      wire := wire + (hdr + sec + encrypted.value);
      return true;
    }

    method WriteSymmetricMessage(msgType: Bytes, body: Bytes) returns (ok: bool)
      modifies this
      ensures seqNum == (old(seqNum) + 1) % 0x1_0000_0000 && reqId == (old(reqId) + 1) % 0x1_0000_0000
      ensures var c := SymChunk(suite, keys, encrypt, msgType, channel, token, seqNum, reqId, body);
              ok == c.Ok? && wire == old(wire) + (if c.Ok? then c.value else [])
    {
      hide Field, PadCount, LE32, CbcEncrypt;
      seqNum, reqId := (seqNum + 1) % 0x1_0000_0000, (reqId + 1) % 0x1_0000_0000;
      var sec := LE32(token);
      var seqHeader := SequenceHeader(seqNum, reqId);
      var pad: Bytes := [];
      if encrypt { pad := MessagePadding(|seqHeader| + |body|, HMAC_SIZE, AES_BLOCK, false); }
      var hdr := ChunkHeader(msgType, 12 + |sec| + |seqHeader| + |body| + |pad| + HMAC_SIZE, channel);
      assert hdr + sec + (seqHeader + body + pad) == hdr + sec + seqHeader + body + pad;
      var sig := suite.hmac(keys.signing, hdr + sec + seqHeader + body + pad);
      var payload := seqHeader + body + pad + sig;
      if encrypt {
        var enc := CbcEncrypt(suite, keys, payload);
        if enc.Err? { return false; }
        payload := enc.value;
      }
      wire := wire + (hdr + sec + payload);
      return true;
    }
  }
}
