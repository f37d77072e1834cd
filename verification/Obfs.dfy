/**
 RTP-shaped packet obfuscation (core/obfs.go).

 A packet is a 12-byte RTP header (RFC 3550, section 5.1), an AEAD-sealed payload and 1 to 256
 bytes of padding whose last byte is the padding count.  The AEAD nonce (RFC 8439, section 2.8)
 is built from the same sequence number and timestamp as the header.
 */
module Obfs {
  import opened Wrappers


  const KEY_LEN := 32
  const OVERHEAD := 16
  const TWO_16 := 0x1_0000
  const TWO_32 := 0x1_0000_0000
  const TWO_48 := 0x1_0000_0000_0000
  const TWO_64 := 0x1_0000_0000_0000_0000

  type U16 = x: int | 0 <= x < 0x1_0000
  type U32 = x: int | 0 <= x < 0x1_0000_0000
  type U64 = x: int | 0 <= x < 0x1_0000_0000_0000_0000

  datatype ObfsError =
    | BadKey | EmptyPayload | TooShort | NotRtp | BadPadding | NoPayload | DstTooSmall | AuthFailed

  /** The authenticated cipher, as functions of key, nonce, text and associated data. */
  datatype Aead = Aead(
    seal: (Bytes, Bytes, Bytes, Bytes) -> Bytes,
    open: (Bytes, Bytes, Bytes, Bytes) -> Option<Bytes>)

  /** What is used of the cipher: sealing adds a 16-byte tag, and opening accepts exactly the
      ciphertexts that sealing produces. */
  ghost predicate Sound(a: Aead) {
    && (forall k, n, p, h :: |a.seal(k, n, p, h)| == |p| + OVERHEAD)
    && (forall k, n, c, p, h :: a.open(k, n, c, h) == Some(p) <==> c == a.seal(k, n, p, h))
  }

  datatype ObfsConfig = ObfsConfig(ssrc: U32, payloadType: Byte, paddingMax: int)

  /** The configuration that core/obfs.go builds for a mode, given its random SSRC. */
  function NewObfsConfig(mode: string, ssrc: U32): ObfsConfig {
    if mode == "video" then ObfsConfig(ssrc, 96, 60) else ObfsConfig(ssrc, 111, 24)
  }

  // ---------------------------------------------------------------- big-endian integers

  function BE16(x: U16): (b: Bytes)
    ensures |b| == 2
  {
    [x / 256, x % 256]
  }

  function BE32(x: U32): (b: Bytes)
    ensures |b| == 4
  {
    BE16(x / TWO_16) + BE16(x % TWO_16)
  }

  function Get16(b: Bytes): U16
    requires |b| == 2
  {
    256 * (b[0] as int) + b[1]
  }

  function Get32(b: Bytes): U32
    requires |b| == 4
  {
    TWO_16 * (Get16(b[..2]) as int) + Get16(b[2..])
  }

  lemma GetPut16(x: U16)
    ensures Get16(BE16(x)) == x
  {
  }

  lemma GetPut32(x: U32)
    ensures Get32(BE32(x)) == x
  {
    assert BE32(x)[..2] == BE16(x / TWO_16) && BE32(x)[2..] == BE16(x % TWO_16);
  }

  // ---------------------------------------------------------------- sequence, timestamp, nonce

  /** initSeq + uint16(c), in 16-bit arithmetic. */
  function SeqAt(initSeq: U16, c: U64): U16 {
    (initSeq + c % TWO_16) % TWO_16
  }

  /** initTs + uint32(c)*960 + uint32(c>>16), each operation in 32-bit arithmetic. */
  function TsAt(initTs: U32, c: U64): U32 {
    ((initTs + (c % TWO_32) * 960 % TWO_32) % TWO_32 + (c / TWO_16) % TWO_32) % TWO_32
  }

  function Nonce(ssrc: U32, s: U16, ts: U32): (n: Bytes)
    ensures |n| == 12
  {
    BE32(ssrc) + BE16(s) + [0, 0] + BE32(ts)
  }

  function NonceAt(ssrc: U32, initSeq: U16, initTs: U32, c: U64): Bytes {
    Nonce(ssrc, SeqAt(initSeq, c), TsAt(initTs, c))
  }

  /** 960 * 2^16 + 1: what the timestamp gains each time the 16-bit sequence number wraps. */
  const TS_PER_WRAP := 62914561

  /** Its inverse modulo 2^32; it exists because TS_PER_WRAP is odd. */
  const TS_PER_WRAP_INV := 4232052737

  lemma ModShift(x: int, q: int)
    ensures (x + q * TWO_32) % TWO_32 == x % TWO_32
  {
  }

  lemma ModDifference(x: int, y: int)
    ensures x % TWO_32 == y % TWO_32 <==> (x - y) % TWO_32 == 0
  {
    var q := x / TWO_32 - y / TWO_32;
    assert x - y == (x % TWO_32 - y % TWO_32) + q * TWO_32;
    ModShift(x % TWO_32 - y % TWO_32, q);
  }

  /** The three 32-bit wrap-arounds in TsAt collapse to one linear form. */
  lemma TsLinear(initTs: U32, c: U64)
    ensures TsAt(initTs, c) == (initTs + 960 * (c % TWO_16) + TS_PER_WRAP * (c / TWO_16)) % TWO_32
  {
    var low := (c % TWO_32) * 960;
    var whole := initTs + 960 * (c % TWO_16) + TS_PER_WRAP * (c / TWO_16);
    assert whole == initTs + 960 * c + c / TWO_16;
    var inner := initTs + low % TWO_32;
    var q := 960 * (c / TWO_32) + low / TWO_32 + inner / TWO_32 + (c / TWO_16) / TWO_32;
    assert whole == inner % TWO_32 + (c / TWO_16) % TWO_32 + q * TWO_32;
    ModShift(inner % TWO_32 + (c / TWO_16) % TWO_32, q);
  }

  lemma TsPerWrapInvertible(d: int)
    ensures (TS_PER_WRAP * d) % TWO_32 == 0 <==> d % TWO_32 == 0
  {
    assert TS_PER_WRAP * TS_PER_WRAP_INV == 1 + 61992961 * TWO_32;
    if (TS_PER_WRAP * d) % TWO_32 == 0 {
      var q := TS_PER_WRAP * d / TWO_32;
      assert d == (q * TS_PER_WRAP_INV - d * 61992961) * TWO_32;
      ModShift(0, q * TS_PER_WRAP_INV - d * 61992961);
    } else if d % TWO_32 == 0 {
      var q := d / TWO_32;
      assert TS_PER_WRAP * d == (TS_PER_WRAP * q) * TWO_32;
      ModShift(0, TS_PER_WRAP * q);
    }
  }

  lemma NonceInjective(ssrc: U32, s1: U16, t1: U32, s2: U16, t2: U32)
    ensures Nonce(ssrc, s1, t1) == Nonce(ssrc, s2, t2) <==> s1 == s2 && t1 == t2
  {
    var n1, n2 := Nonce(ssrc, s1, t1), Nonce(ssrc, s2, t2);
    assert n1[4..6] == BE16(s1) && n1[8..12] == BE32(t1);
    assert n2[4..6] == BE16(s2) && n2[8..12] == BE32(t2);
    GetPut16(s1); GetPut16(s2); GetPut32(t1); GetPut32(t2);
  }

  lemma SplitCounter(c: int)
    ensures c % TWO_48 == (c / TWO_16 % TWO_32) * TWO_16 + c % TWO_16
  {
  }

  lemma SameSeq(initSeq: U16, c1: U64, c2: U64)
    ensures SeqAt(initSeq, c1) == SeqAt(initSeq, c2) <==> c1 % TWO_16 == c2 % TWO_16
  {
  }

  lemma SameTs(initTs: U32, c1: U64, c2: U64)
    requires c1 % TWO_16 == c2 % TWO_16
    ensures TsAt(initTs, c1) == TsAt(initTs, c2) <==> c1 / TWO_16 % TWO_32 == c2 / TWO_16 % TWO_32
  {
    var h1, h2 := c1 / TWO_16, c2 / TWO_16;
    TsLinear(initTs, c1);
    TsLinear(initTs, c2);
    ModDifference(initTs + 960 * (c1 % TWO_16) + TS_PER_WRAP * h1, initTs + 960 * (c2 % TWO_16) + TS_PER_WRAP * h2);
    TsPerWrapInvertible(h1 - h2);
    ModDifference(h1, h2);
  }

  /** Two packets of one stream carry the same nonce exactly when their counters agree modulo 2^48. */
  lemma NonceRepeatsExactly(ssrc: U32, initSeq: U16, initTs: U32, c1: U64, c2: U64)
    ensures NonceAt(ssrc, initSeq, initTs, c1) == NonceAt(ssrc, initSeq, initTs, c2)
            <==> c1 % TWO_48 == c2 % TWO_48
  {
    NonceInjective(ssrc, SeqAt(initSeq, c1), TsAt(initTs, c1), SeqAt(initSeq, c2), TsAt(initTs, c2));
    SplitCounter(c1);
    SplitCounter(c2);
    SameSeq(initSeq, c1, c2);
    if c1 % TWO_16 == c2 % TWO_16 {
      SameTs(initTs, c1, c2);
    }
  }

  /** The counter taken by the i-th wrap after a state that stands at start; wraps serialise on the
      state's mutex and the counter is 64 bits wide. */
  function CounterAfter(start: U64, i: nat): U64 {
    (start + i) % TWO_64
  }

  lemma CounterMod48(start: U64, i: nat)
    ensures CounterAfter(start, i) % TWO_48 == (start + i) % TWO_48
  {
  }

  lemma Within48(x: int, d: nat)
    requires 0 < d <= TWO_48
    ensures x % TWO_48 == (x + d) % TWO_48 <==> d == TWO_48
  {
    var q := (x + d) / TWO_48 - x / TWO_48;
    assert d == q * TWO_48 + (x + d) % TWO_48 - x % TWO_48;
  }

  /** Any 2^48 consecutive wraps of one state, from any counter and across the 64-bit wrap, use
      pairwise different nonces; the very next one repeats the first. */
  lemma NoncesDistinctForExactly2To48(ssrc: U32, initSeq: U16, initTs: U32, start: U64, i: nat, j: nat)
    requires i < j <= i + TWO_48
    ensures NonceAt(ssrc, initSeq, initTs, CounterAfter(start, i)) == NonceAt(ssrc, initSeq, initTs, CounterAfter(start, j))
            <==> j == i + TWO_48
  {
    Within48(start + i, j - i);
    NonceRepeatsExactly(ssrc, initSeq, initTs, CounterAfter(start, i), CounterAfter(start, j));
    CounterMod48(start, i);
    CounterMod48(start, j);
  }

  // ---------------------------------------------------------------- the wire format

  /** V=2 with the padding bit, the payload type, sequence number, timestamp and SSRC. */
  function Header(cfg: ObfsConfig, s: U16, ts: U32): (h: Bytes)
    ensures |h| == 12
  {
    [0xA0, cfg.payloadType % 128] + BE16(s) + BE32(ts) + BE32(cfg.ssrc)
  }

  /** The number of random padding bytes for the random draw rnd. */
  function PadRand(cfg: ObfsConfig, rnd: Byte): nat {
    if cfg.paddingMax > 0 then rnd % cfg.paddingMax else 0
  }

  /** Random padding bytes; noise stands for the random source. */
  function Padding(noise: nat -> Byte, n: nat): (b: Bytes)
    ensures |b| == n
  {
    seq(n, i requires 0 <= i < n => noise(i))
  }

  function Packet(a: Aead, key: Bytes, payload: Bytes, cfg: ObfsConfig, s: U16, ts: U32, rnd: Byte, noise: nat -> Byte): Bytes {
    var header := Header(cfg, s, ts);
    var pad := PadRand(cfg, rnd);
    header + a.seal(key, Nonce(cfg.ssrc, s, ts), payload, header) + Padding(noise, pad) + [(pad + 1) % 256]
  }

  /** Where the ciphertext ends: before the padding when the padding bit is set. */
  function CipherEnd(wire: Bytes): int
    requires wire != []
  {
    if (wire[0] / 32) % 2 == 1 then |wire| - wire[|wire| - 1] else |wire|
  }

  function NonceOf(wire: Bytes): Bytes
    requires |wire| >= 12
  {
    Nonce(Get32(wire[8..12]), Get16(wire[2..4]), Get32(wire[4..8]))
  }

  function Unwrap(a: Aead, key: Bytes, wire: Bytes, room: nat): Result<Bytes, ObfsError> {
    if |key| != KEY_LEN then Failure(BadKey)
    else if |wire| < 13 then Failure(TooShort)
    else if wire[0] / 64 != 2 then Failure(NotRtp)
    else
      var padded := (wire[0] / 32) % 2 == 1;
      var padLen := wire[|wire| - 1];
      if padded && (padLen == 0 || padLen > |wire| - 12) then Failure(BadPadding)
      else
        var end := CipherEnd(wire);
        if end - 12 <= OVERHEAD then Failure(NoPayload)
        else if end - 12 - OVERHEAD > room then Failure(DstTooSmall)
        else
          match a.open(key, NonceOf(wire), wire[12..end], wire[..12])
          case None => Failure(AuthFailed)
          case Some(plain) => Success(plain)
  }

  predicate IsRtpPacket(wire: Bytes) {
    |wire| >= 13 && wire[0] / 64 == 2 && (wire[1] % 128 == 111 || wire[1] % 128 == 96)
  }

  lemma HeaderFields(cfg: ObfsConfig, s: U16, ts: U32)
    ensures var h := Header(cfg, s, ts);
            Get16(h[2..4]) == s && Get32(h[4..8]) == ts && Get32(h[8..12]) == cfg.ssrc
  {
    var h := Header(cfg, s, ts);
    assert h[2..4] == BE16(s) && h[4..8] == BE32(ts) && h[8..12] == BE32(cfg.ssrc);
    GetPut16(s); GetPut32(ts); GetPut32(cfg.ssrc);
  }

  /** The one padding choice whose count does not fit the final byte. */
  predicate PaddingOverflows(cfg: ObfsConfig, rnd: Byte) {
    cfg.paddingMax >= 256 && rnd == 255
  }

  /** Unwrapping a wrapped packet gives the payload back, for every payload, padding and large
      enough destination, unless the padding count overflows its byte. */
  lemma UnwrapInvertsWrap(
      a: Aead, key: Bytes, payload: Bytes, cfg: ObfsConfig, s: U16, ts: U32, rnd: Byte, noise: nat -> Byte, room: nat)
    requires Sound(a)
    requires |key| == KEY_LEN && payload != [] && |payload| <= room
    ensures Unwrap(a, key, Packet(a, key, payload, cfg, s, ts, rnd, noise), room) == Success(payload)
            <==> !PaddingOverflows(cfg, rnd)
  {
    var header := Header(cfg, s, ts);
    var nonce := Nonce(cfg.ssrc, s, ts);
    var body := a.seal(key, nonce, payload, header);
    var pad := PadRand(cfg, rnd);
    var wire := Packet(a, key, payload, cfg, s, ts, rnd, noise);
    assert |wire| == 12 + |body| + pad + 1;
    assert wire[..12] == header;
    assert wire[|wire| - 1] == (pad + 1) % 256;
    PadRange(cfg, rnd);
    if !PaddingOverflows(cfg, rnd) {
      assert wire[12..|wire| - (pad + 1)] == body;
      HeaderFields(cfg, s, ts);
      assert wire[2..4] == header[2..4] && wire[4..8] == header[4..8] && wire[8..12] == header[8..12];
      assert a.open(key, nonce, body, header) == Some(payload);
    }
  }

  lemma PadRange(cfg: ObfsConfig, rnd: Byte)
    ensures 0 <= PadRand(cfg, rnd) <= 255
    ensures PadRand(cfg, rnd) == 255 <==> PaddingOverflows(cfg, rnd)
    ensures cfg.paddingMax > 0 ==> PadRand(cfg, rnd) < cfg.paddingMax
  {
  }

  /** Nothing but a sealed packet is accepted: the ciphertext between the header and the padding is
      the one that sealing the delivered payload under that header would give. */
  lemma AcceptedIsSealed(a: Aead, key: Bytes, wire: Bytes, room: nat, payload: Bytes)
    requires Sound(a)
    requires Unwrap(a, key, wire, room) == Success(payload)
    ensures payload != [] && |payload| <= room && |key| == KEY_LEN
    ensures 12 <= CipherEnd(wire) <= |wire|
    ensures wire == wire[..12] + a.seal(key, NonceOf(wire), payload, wire[..12]) + wire[CipherEnd(wire)..]
  {
    var end := CipherEnd(wire);
    assert wire[12..end] == a.seal(key, NonceOf(wire), payload, wire[..12]);
  }

  /** The RTP test lets a wrapped packet through exactly for the two payload types in use. */
  lemma WrappedLooksLikeRtp(a: Aead, key: Bytes, payload: Bytes, cfg: ObfsConfig, s: U16, ts: U32, rnd: Byte, noise: nat -> Byte)
    requires Sound(a)
    ensures IsRtpPacket(Packet(a, key, payload, cfg, s, ts, rnd, noise))
            <==> cfg.payloadType % 128 == 96 || cfg.payloadType % 128 == 111
  {
    var wire := Packet(a, key, payload, cfg, s, ts, rnd, noise);
    assert wire[0] == 0xA0 && wire[1] == cfg.payloadType % 128;
  }

  lemma PacketLength(a: Aead, key: Bytes, payload: Bytes, cfg: ObfsConfig, s: U16, ts: U32, rnd: Byte, noise: nat -> Byte)
    requires Sound(a)
    ensures |Packet(a, key, payload, cfg, s, ts, rnd, noise)| == 12 + |payload| + OVERHEAD + PadRand(cfg, rnd) + 1
    ensures PadRand(cfg, rnd) < WorstPadding(cfg)
  {
    PadRange(cfg, rnd);
  }

  /** core/session.go reads relay packets into a buffer of 1600 + 80 bytes. */
  const READ_BUF := 1680

  /** The longest packet that some padding draw produces for a payload of the given length. */
  function WorstPadding(cfg: ObfsConfig): (w: int)
    ensures 1 <= w <= 256
  {
    if cfg.paddingMax <= 0 then 1 else if cfg.paddingMax > 256 then 256 else cfg.paddingMax
  }

  /** Whatever the padding draw, the packet fits the session's read buffer exactly when the payload
      leaves room for the worst padding. */
  lemma FitsReadBuffer(a: Aead, key: Bytes, payload: Bytes, cfg: ObfsConfig, s: U16, ts: U32, noise: nat -> Byte)
    requires Sound(a)
    ensures (forall rnd: Byte :: |Packet(a, key, payload, cfg, s, ts, rnd, noise)| <= READ_BUF)
            <==> |payload| <= 1652 - WorstPadding(cfg)
  {
    hide Packet, Sound;
    forall rnd: Byte
      ensures |Packet(a, key, payload, cfg, s, ts, rnd, noise)| == 12 + |payload| + OVERHEAD + PadRand(cfg, rnd) + 1
      ensures PadRand(cfg, rnd) < WorstPadding(cfg)
    {
      PacketLength(a, key, payload, cfg, s, ts, rnd, noise);
    }
    var worst: Byte := WorstPadding(cfg) - 1;
    WorstDraw(cfg);
    assert |Packet(a, key, payload, cfg, s, ts, worst, noise)| == 12 + |payload| + OVERHEAD + WorstPadding(cfg);
  }

  lemma WorstDraw(cfg: ObfsConfig)
    ensures PadRand(cfg, WorstPadding(cfg) - 1) == WorstPadding(cfg) - 1
  {
    if cfg.paddingMax > 0 {
      SmallMod(WorstPadding(cfg) - 1, cfg.paddingMax);
    }
  }

  lemma SmallMod(x: int, m: int)
    requires 0 <= x < m
    ensures x % m == x
  {
  }

  /** A session relays payloads of up to 1600 bytes.  All of them fit in audio mode; in video mode a
      full-size payload can exceed the peer's buffer. */
  lemma VideoModeCanOverflow(a: Aead, key: Bytes, payload: Bytes, ssrc: U32, s: U16, ts: U32, noise: nat -> Byte)
    requires Sound(a)
    requires |payload| <= 1600
    ensures forall rnd: Byte :: |Packet(a, key, payload, NewObfsConfig("audio", ssrc), s, ts, rnd, noise)| <= READ_BUF
    ensures (exists rnd: Byte :: |Packet(a, key, payload, NewObfsConfig("video", ssrc), s, ts, rnd, noise)| > READ_BUF)
            <==> |payload| > 1592
  {
    FitsReadBuffer(a, key, payload, NewObfsConfig("audio", ssrc), s, ts, noise);
    FitsReadBuffer(a, key, payload, NewObfsConfig("video", ssrc), s, ts, noise);
  }

  // ---------------------------------------------------------------- the imperative code

  method PutUint16(out: array<Byte>, at: nat, x: U16)
    requires at + 2 <= out.Length
    modifies out
    ensures out[..] == old(out[..at]) + BE16(x) + old(out[at + 2..])
  {
    out[at], out[at + 1] := x / 256, x % 256;
  }

  method PutUint32(out: array<Byte>, at: nat, x: U32)
    requires at + 4 <= out.Length
    modifies out
    ensures out[..] == old(out[..at]) + BE32(x) + old(out[at + 4..])
  {
    PutUint16(out, at, x / TWO_16);
    PutUint16(out, at + 2, x % TWO_16);
  }

  method CopyInto(out: array<Byte>, at: nat, src: Bytes)
    requires at + |src| <= out.Length
    modifies out
    ensures out[..] == old(out[..at]) + src + old(out[at + |src|..])
  {
    for i := 0 to |src|
      invariant out[..] == old(out[..at]) + src[..i] + old(out[at + i..])
    {
      out[at + i] := src[i];
    }
    assert src[..|src|] == src;
  }

  method WriteHeader(out: array<Byte>, cfg: ObfsConfig, s: U16, ts: U32)
    requires out.Length >= 12
    modifies out
    ensures out[..] == Header(cfg, s, ts) + old(out[12..])
  {
    out[0] := 0xA0;
    out[1] := cfg.payloadType % 128;
    PutUint16(out, 2, s);
    PutUint32(out, 4, ts);
    PutUint32(out, 8, cfg.ssrc);
  }

  /** Everything after the header: the sealed payload, the padding and its count. */
  method WriteBody(out: array<Byte>, sealed: Bytes, padding: Bytes, count: Byte)
    requires out.Length == 12 + |sealed| + |padding| + 1
    modifies out
    ensures out[..] == old(out[..12]) + sealed + padding + [count]
  {
    CopyInto(out, 12, sealed);
    assert out[..12 + |sealed|] == old(out[..12]) + sealed;
    CopyInto(out, 12 + |sealed|, padding);
    assert out[..out.Length - 1] == old(out[..12]) + sealed + padding;
    out[out.Length - 1] := count;
    assert out[..] == out[..out.Length - 1] + [count];
  }

  method BuildNonce(ssrc: U32, s: U16, ts: U32) returns (n: array<Byte>)
    ensures fresh(n) && n[..] == Nonce(ssrc, s, ts)
  {
    n := new Byte[12](_ => 0);
    PutUint32(n, 0, ssrc);
    PutUint16(n, 4, s);
    PutUint32(n, 8, ts);
  }

  class ObfsState {
    const initSeq: U16
    const initTs: U32
    var count: U64

    constructor (initSeq: U16, initTs: U32)
      ensures this.initSeq == initSeq && this.initTs == initTs && count == 0
    {
      this.initSeq, this.initTs, this.count := initSeq, initTs, 0;
    }

    /** rnd and noise are the random bytes drawn for the padding. */
    method Wrap(a: Aead, key: Bytes, payload: Bytes, cfg: ObfsConfig, rnd: Byte, noise: nat -> Byte)
      returns (r: Result<array<Byte>, ObfsError>)
      requires Sound(a)
      modifies this`count
      ensures |key| != KEY_LEN ==> r == Failure(BadKey)
      ensures |key| == KEY_LEN && payload == [] ==> r == Failure(EmptyPayload)
      ensures r.Failure? ==> count == old(count)
      ensures |key| == KEY_LEN && payload != [] ==>
                && r.Success? && fresh(r.value)
                && count == CounterAfter(old(count), 1)
                && r.value[..] == Packet(a, key, payload, cfg, SeqAt(initSeq, old(count)), TsAt(initTs, old(count)), rnd, noise)
    {
      if |key| != KEY_LEN {
        return Failure(BadKey);
      }
      if |payload| == 0 {
        return Failure(EmptyPayload);
      }
      var c := count;
      count := (count + 1) % TWO_64;

      var s := SeqAt(initSeq, c);
      var ts := TsAt(initTs, c);
      var nonce := BuildNonce(cfg.ssrc, s, ts);
      var padRand := PadRand(cfg, rnd);
      var padTotal := padRand + 1;

      var outLen := 12 + |payload| + OVERHEAD + padTotal;
      var out := new Byte[outLen](_ => 0);
      WriteHeader(out, cfg, s, ts);

      var sealed := a.seal(key, nonce[..], payload, out[..12]);
      WriteBody(out, sealed, Padding(noise, padRand), padTotal % 256);
      assert out[..] == Packet(a, key, payload, cfg, s, ts, rnd, noise);
      r := Success(out);
    }
  }

  /** The plaintext is written at the start of dst; only its length is returned.  After a failed
      authentication nothing is said about dst. */
  method UnwrapInto(a: Aead, key: Bytes, wire: Bytes, dst: array<Byte>) returns (r: Result<nat, ObfsError>)
    requires Sound(a)
    modifies dst
    ensures match Unwrap(a, key, wire, dst.Length)
            case Success(plain) =>
              r == Success(|plain|) && |plain| <= dst.Length && dst[..] == plain + old(dst[|plain|..])
            case Failure(e) => r == Failure(e) && (e != AuthFailed ==> dst[..] == old(dst[..]))
  {
    if |key| != KEY_LEN {
      return Failure(BadKey);
    }
    if |wire| < 13 {
      return Failure(TooShort);
    }
    if wire[0] / 64 != 2 {
      return Failure(NotRtp);
    }
    var s, ts, ssrc := Get16(wire[2..4]), Get32(wire[4..8]), Get32(wire[8..12]);
    var payloadEnd := |wire|;
    if (wire[0] / 32) % 2 == 1 {
      var padLen := wire[|wire| - 1];
      if padLen == 0 || padLen > payloadEnd - 12 {
        return Failure(BadPadding);
      }
      payloadEnd := payloadEnd - padLen;
    }
    var ciphertextLen := payloadEnd - 12;
    if ciphertextLen <= OVERHEAD {
      return Failure(NoPayload);
    }
    if ciphertextLen - OVERHEAD > dst.Length {
      return Failure(DstTooSmall);
    }
    var nonce := BuildNonce(ssrc, s, ts);
    var unsealed := a.open(key, nonce[..], wire[12..payloadEnd], wire[..12]);
    if unsealed == None {
      return Failure(AuthFailed);
    }
    var plain := unsealed.value;
    CopyInto(dst, 0, plain);
    r := Success(|plain|);
  }
}
