/**
 The bytes of an obfuscated packet (core/obfs.go), as RFC 3550, section 5.1, lays them out, and how the
 sequence number and the timestamp go on from packet to packet.
 */
module ObfsWire {
  import opened Obfs
  import opened Wrappers

  // ---------------------------------------------------------------- integers on the wire

  /** The most significant byte comes first. */
  lemma BigEndian(x: U16, y: U32)
    ensures var b := BE16(x); 256 * (b[0] as int) + b[1] == x
    ensures var b := BE32(y); 0x100_0000 * (b[0] as int) + 0x1_0000 * (b[1] as int) + 256 * (b[2] as int) + b[3] == y
  {
  }

  lemma ReadBigEndian(b: Bytes, c: Bytes)
    requires |b| == 2 && |c| == 4
    ensures Get16(b) == 256 * (b[0] as int) + b[1]
    ensures Get32(c) == 0x100_0000 * (c[0] as int) + 0x1_0000 * (c[1] as int) + 256 * (c[2] as int) + c[3]
  {
  }

  // ---------------------------------------------------------------- from packet to packet

  /** The sequence number begins where the state was set up and goes up by one, the timestamp by 960 and,
      each time the low half of the counter wraps, by one more; both modulo their widths. */
  lemma NextPacket(initSeq: U16, initTs: U32, c: U64)
    requires c + 1 < TWO_64
    ensures SeqAt(initSeq, 0) == initSeq && TsAt(initTs, 0) == initTs
    ensures SeqAt(initSeq, c + 1) == (SeqAt(initSeq, c) + 1) % 0x1_0000
    ensures TsAt(initTs, c + 1) == (TsAt(initTs, c) + (if (c + 1) % 0x1_0000 == 0 then 961 else 960)) % 0x1_0000_0000
  {
    hide SeqAt, TsAt;
    FirstPacket(initSeq, initTs);
    NextSeq(initSeq, c);
    NextTs(initTs, c);
  }

  lemma FirstPacket(initSeq: U16, initTs: U32)
    ensures SeqAt(initSeq, 0) == initSeq && TsAt(initTs, 0) == initTs
  {
  }

  lemma NextSeq(initSeq: U16, c: U64)
    requires c + 1 < TWO_64
    ensures SeqAt(initSeq, c + 1) == (SeqAt(initSeq, c) + 1) % 0x1_0000
  {
  }

  lemma NextTs(initTs: U32, c: U64)
    requires c + 1 < TWO_64
    ensures TsAt(initTs, c + 1) == (TsAt(initTs, c) + (if (c + 1) % 0x1_0000 == 0 then 961 else 960)) % 0x1_0000_0000
  {
    hide TsAt;
    TsLinear(initTs, c);
    TsLinear(initTs, c + 1);
    var step := if (c + 1) % TWO_16 == 0 then 961 else 960;
    WholeGrows(initTs, c, step);
    AddModulo(initTs + 960 * (c % TWO_16) + TS_PER_WRAP * (c / TWO_16), step);
  }

  lemma WholeGrows(initTs: U32, c: nat, step: int)
    requires step == if (c + 1) % TWO_16 == 0 then 961 else 960
    ensures initTs + 960 * ((c + 1) % TWO_16) + TS_PER_WRAP * ((c + 1) / TWO_16)
         == initTs + 960 * (c % TWO_16) + TS_PER_WRAP * (c / TWO_16) + step
  {
    NextCounter(c);
  }

  lemma NextCounter(c: nat)
    ensures if (c + 1) % TWO_16 == 0 then c % TWO_16 == TWO_16 - 1 && (c + 1) / TWO_16 == c / TWO_16 + 1
            else (c + 1) % TWO_16 == c % TWO_16 + 1 && (c + 1) / TWO_16 == c / TWO_16
  {
  }

  lemma AddModulo(x: int, d: int)
    ensures (x % TWO_32 + d) % TWO_32 == (x + d) % TWO_32
  {
    ModShift(x % TWO_32 + d, x / TWO_32);
  }

  // ---------------------------------------------------------------- a packet, byte by byte

  /** Version 2 with padding and no extension or sources; no marker; the sequence number, the timestamp and
      the source in network order; then the sealed payload, the random padding and its length. */
  lemma PacketBytes(a: Aead, key: Bytes, payload: Bytes, cfg: ObfsConfig, s: U16, ts: U32, rnd: Byte, noise: nat -> Byte)
    requires Sound(a)
    ensures var wire := Packet(a, key, payload, cfg, s, ts, rnd, noise);
            var pad := if cfg.paddingMax > 0 then rnd % cfg.paddingMax else 0;
            && |wire| == 12 + |payload| + 16 + pad + 1
            && wire[0] == 160 && wire[1] < 128 && wire[1] == cfg.payloadType % 128
            && 256 * (wire[2] as int) + wire[3] == s
            && 0x100_0000 * (wire[4] as int) + 0x1_0000 * (wire[5] as int) + 256 * (wire[6] as int) + wire[7] == ts
            && 0x100_0000 * (wire[8] as int) + 0x1_0000 * (wire[9] as int) + 256 * (wire[10] as int) + wire[11] == cfg.ssrc
            && wire[|wire| - 1] == (pad + 1) % 256
            && (forall i :: 0 <= i < pad ==> wire[28 + |payload| + i] == noise(i))
            && var nonce := Nonce(cfg.ssrc, s, ts);
               && wire[12..28 + |payload|] == a.seal(key, nonce, payload, wire[..12])
               && nonce == wire[8..12] + wire[2..4] + [0, 0] + wire[4..8]
  {
    var h := Header(cfg, s, ts);
    var wire := Packet(a, key, payload, cfg, s, ts, rnd, noise);
    assert wire[..12] == h && forall i :: 0 <= i < 12 ==> wire[i] == h[i];
    assert wire[2..4] == BE16(s) && wire[4..8] == BE32(ts) && wire[8..12] == BE32(cfg.ssrc);
    BigEndian(s, ts);
    BigEndian(s, cfg.ssrc);
  }

  /** A packet passes the RTP test exactly when it is longer than a header, of version 2 and of one of the
      two payload types, whatever its marker. */
  lemma RtpTest(wire: Bytes)
    ensures IsRtpPacket(wire) <==>
              |wire| > 12 && 128 <= wire[0] < 192 && (wire[1] == 96 || wire[1] == 111 || wire[1] == 224 || wire[1] == 239)
  {
  }

  // ---------------------------------------------------------------- what is refused

  /** The padding bit is set. */
  predicate Padded(wire: Bytes)
    requires wire != []
  {
    wire[0] / 32 % 2 == 1
  }

  /** Each error, in the order in which the decoder finds it, and the payload otherwise. */
  lemma UnwrapOutcome(a: Aead, key: Bytes, wire: Bytes, room: nat)
    ensures var r := Unwrap(a, key, wire, room);
            if |key| != 32 then r == Failure(BadKey)
            else if |wire| < 13 then r == Failure(TooShort)
            else if !(128 <= wire[0] < 192) then r == Failure(NotRtp)
            else
              var pad := if Padded(wire) then wire[|wire| - 1] as int else 0;
              if Padded(wire) && (pad == 0 || pad > |wire| - 12) then r == Failure(BadPadding)
              else if |wire| - pad - 12 <= 16 then r == Failure(NoPayload)
              else if |wire| - pad - 28 > room then r == Failure(DstTooSmall)
              else
                var nonce := wire[8..12] + wire[2..4] + [0, 0] + wire[4..8];
                var plain := a.open(key, nonce, wire[12..|wire| - pad], wire[..12]);
                r == if plain.None? then Failure(AuthFailed) else Success(plain.value)
  {
    if |wire| >= 13 {
      NonceBytes(wire);
    }
  }

  lemma NonceBytes(wire: Bytes)
    requires |wire| >= 12
    ensures NonceOf(wire) == wire[8..12] + wire[2..4] + [0, 0] + wire[4..8]
  {
    PutGet32(wire[8..12]);
    PutGet16(wire[2..4]);
    PutGet32(wire[4..8]);
  }

  lemma PutGet16(b: Bytes)
    requires |b| == 2
    ensures BE16(Get16(b)) == b
  {
  }

  lemma PutGet32(b: Bytes)
    requires |b| == 4
    ensures BE32(Get32(b)) == b
  {
    PutGet16(b[..2]);
    PutGet16(b[2..]);
    assert b == b[..2] + b[2..];
  }
}
