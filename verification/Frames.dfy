/**
 RTP-like framing of AEAD-sealed packets: what the sender writes, what the
 receiver accepts, and that the second undoes the first. The AEAD is abstract;
 random bytes are inputs.
 */
module Frames {
  import opened Arithmetic
  import opened Wrappers
  import opened Nonces

  const KEY_LEN := 32
  const OVERHEAD := 16
  const HEADER_LEGACY := 12
  const HEADER_FULL := 24
  const READ_SLACK := 80

  /** An authenticated cipher: key, nonce, text, associated data. */
  datatype Aead = Aead(
    seal: (seq<byte>, seq<byte>, seq<byte>, seq<byte>) -> seq<byte>,
    open: (seq<byte>, seq<byte>, seq<byte>, seq<byte>) -> Option<seq<byte>>)
  {
    /** Opening undoes sealing, and the tag takes 16 bytes. */
    ghost predicate Lawful() {
      && (forall k, n, p, a :: |seal(k, n, p, a)| == |p| + OVERHEAD && open(k, n, seal(k, n, p, a), a) == Some(p))
      && (forall k, n, c, a :: open(k, n, c, a).Some? ==> |c| == |open(k, n, c, a).value| + OVERHEAD)
    }
  }

  datatype Error =
    | BadKey
    | EmptyPayload
    | TooShort
    | NotRtp
    | TooShortForExtension
    | BadPadding
    | NoPayload
    | DstTooSmall
    | AuthFailed

  datatype Config = Config(ssrc: u32, payloadType: byte, paddingMax: int)

  /** Audio looks like Opus, video like H.264 with more padding. */
  function NewConfig(video: bool, ssrc: u32): Config {
    if video then Config(ssrc, 96, 60) else Config(ssrc, 111, 24)
  }

  /** How many random padding bytes go in front of the length byte. */
  function PadCount(cfg: Config, rnd: byte): (n: nat)
    ensures n < 256 && (cfg.paddingMax > 0 ==> n < cfg.paddingMax) && (cfg.paddingMax <= 0 ==> n == 0)
    ensures rnd < cfg.paddingMax ==> n == rnd
  {
    if rnd < cfg.paddingMax then DivModUnique(rnd, cfg.paddingMax, 0, rnd); rnd % cfg.paddingMax
    else if cfg.paddingMax > 0 then rnd % cfg.paddingMax
    else 0
  }

  /** Every random byte has a say in how many there are. */
  lemma PadFollowsRandom(cfg: Config, rnd: byte) returns (q: nat)
    requires cfg.paddingMax > 0
    ensures rnd as int == q * cfg.paddingMax + PadCount(cfg, rnd)
  {
    DivModEquation(rnd, cfg.paddingMax);
    q := rnd / cfg.paddingMax;
  }

  /** Version 2, padding, no extension, no sources; payload type; sequence number; timestamp; SSRC. */
  function Header(cfg: Config, seqNum: u16, ts: u32): (h: seq<byte>)
    ensures |h| == HEADER_LEGACY
  {
    [0xA0, cfg.payloadType % 0x80] + BE16(seqNum) + BE32(ts) + BE32(cfg.ssrc)
  }

  /** The frame for one payload. */
  function Frame(aead: Aead, key: seq<byte>, payload: seq<byte>, cfg: Config,
                   seqNum: u16, ts: u32, noise: seq<byte>): seq<byte> {
    var h := Header(cfg, seqNum, ts);
    h + aead.seal(key, BuildNonce(cfg.ssrc, seqNum, ts), payload, h) + noise + [(|noise| + 1) % 0x100]
  }

  /** Does a datagram look like one of ours? */
  predicate IsRtp(wire: seq<byte>) {
    && |wire| >= HEADER_LEGACY + 1
    && wire[0] / 0x40 == 2
    && (wire[1] % 0x80 == 111 || wire[1] % 0x80 == 96)
  }

  predicate Extended(wire: seq<byte>)
    requires |wire| > 0
  {
    wire[0] / 0x10 % 2 == 1
  }

  predicate Padded(wire: seq<byte>)
    requires |wire| > 0
  {
    wire[0] / 0x20 % 2 == 1
  }

  function HeaderLen(wire: seq<byte>): nat
    requires |wire| > 0
  {
    if Extended(wire) then HEADER_FULL else HEADER_LEGACY
  }

  /** The nonce that the header fields of a datagram stand for. */
  function WireNonce(wire: seq<byte>): seq<byte>
    requires |wire| >= HEADER_LEGACY
  {
    BuildNonce(FromBE32(wire[8..12]), FromBE16(wire[2..4]), FromBE32(wire[4..8]))
  }

  /** What a receiver with room for dstLen bytes makes of a datagram. */
  function Decode(aead: Aead, key: seq<byte>, wire: seq<byte>, dstLen: nat): Result<seq<byte>, Error> {
    if |key| != KEY_LEN then Err(BadKey)
    else if |wire| < HEADER_LEGACY + 1 then Err(TooShort)
    else if wire[0] / 0x40 != 2 then Err(NotRtp)
    else
      var h := HeaderLen(wire);
      if |wire| < h + 1 then Err(TooShortForExtension)
      else
        var padLen := if Padded(wire) then wire[|wire| - 1] else 0;
        if Padded(wire) && (padLen == 0 || padLen > |wire| - h) then Err(BadPadding)
        else
          var end := |wire| - padLen;
          if end - h <= OVERHEAD then Err(NoPayload)
          else if end - h - OVERHEAD > dstLen then Err(DstTooSmall)
          else
            match aead.open(key, WireNonce(wire), wire[h..end], wire[..h])
            case None => Err(AuthFailed)
            case Some(p) => Ok(p)
  }

  // ---------------------------------------------------------------------
  // Properties
  // ---------------------------------------------------------------------

  /** Some cipher obeys the laws: nothing here is true for want of one. */
  lemma LawsAreConsistent()
    ensures exists a: Aead :: a.Lawful()
  {
    var tag: seq<byte> := seq(OVERHEAD, _ => 0);
    var a := Aead((k, n, p, d) => p + tag,
                  (k, n, c, d) => if |c| >= OVERHEAD && c[|c| - OVERHEAD..] == tag
                      then Some(c[..|c| - OVERHEAD]) else None);
    forall k, n, p, d ensures |a.seal(k, n, p, d)| == |p| + OVERHEAD && a.open(k, n, a.seal(k, n, p, d), d) == Some(p) {
      var c := p + tag;
      assert c[|c| - OVERHEAD..] == tag && c[..|c| - OVERHEAD] == p;
    }
    assert a.Lawful();
  }

  lemma FrameShape(aead: Aead, key: seq<byte>, payload: seq<byte>, cfg: Config, seqNum: u16, ts: u32, noise: seq<byte>)
    requires aead.Lawful()
    ensures var f, h := Frame(aead, key, payload, cfg, seqNum, ts, noise), Header(cfg, seqNum, ts);
            && |f| == HEADER_LEGACY + |payload| + OVERHEAD + |noise| + 1
            && f[..HEADER_LEGACY] == h
            && f[HEADER_LEGACY..HEADER_LEGACY + |payload| + OVERHEAD]
               == aead.seal(key, BuildNonce(cfg.ssrc, seqNum, ts), payload, h)
            && f[|f| - 1] == (|noise| + 1) % 0x100
  {}

  /** A receiver reads the sender's nonce off the header. */
  lemma NonceTravels(wire: seq<byte>, cfg: Config, seqNum: u16, ts: u32)
    requires |wire| >= HEADER_LEGACY && wire[..HEADER_LEGACY] == Header(cfg, seqNum, ts)
    ensures WireNonce(wire) == BuildNonce(cfg.ssrc, seqNum, ts)
  {
    var h := Header(cfg, seqNum, ts);
    assert wire[2..4] == h[2..4] == BE16(seqNum);
    assert wire[4..8] == h[4..8] == BE32(ts);
    assert wire[8..12] == h[8..12] == BE32(cfg.ssrc);
    BigEndianRoundTrip(seqNum, ts);
    BigEndianRoundTrip(seqNum, cfg.ssrc);
  }

  /**
   The header is that of RFC 3550, section 5.1: version 2, padding, no extension, no sources, no marker,
   then the fields with their high octets first.
   */
  lemma HeaderIsRtp(cfg: Config, seqNum: u16, ts: u32)
    ensures var h := Header(cfg, seqNum, ts);
            && h[0] / 0x40 == 2 && h[0] / 0x20 % 2 == 1 && h[0] / 0x10 % 2 == 0 && h[0] % 0x10 == 0
            && h[1] / 0x80 == 0 && (h[1] as int - cfg.payloadType) % 0x80 == 0
            && h[2] as int * 0x100 + h[3] as int == seqNum
            && h[4] as int * 0x100_0000 + h[5] as int * 0x1_0000 + h[6] as int * 0x100 + h[7] as int == ts
            && h[8] as int * 0x100_0000 + h[9] as int * 0x1_0000 + h[10] as int * 0x100 + h[11] as int == cfg.ssrc
  {
    var h := Header(cfg, seqNum, ts);
    BigEndianRoundTrip(seqNum, ts);
    BigEndianRoundTrip(seqNum, cfg.ssrc);
    assert h[2..4] == BE16(seqNum) && h[4..8] == BE32(ts) && h[8..12] == BE32(cfg.ssrc);
  }

  /** The last octet says how many octets follow the sealed payload, itself included. */
  lemma LastOctetCountsPadding(aead: Aead, key: seq<byte>, payload: seq<byte>, cfg: Config,
                               seqNum: u16, ts: u32, noise: seq<byte>)
    requires aead.Lawful() && |noise| < 255
    ensures var f := Frame(aead, key, payload, cfg, seqNum, ts, noise);
            f[|f| - 1] as int == |f| - 12 - (|payload| + 16)
  {
    FrameShape(aead, key, payload, cfg, seqNum, ts, noise);
  }

  /** What a frame of either mode shows of itself. */
  lemma ModeOnTheWire(aead: Aead, key: seq<byte>, payload: seq<byte>, video: bool, ssrc: u32,
                      seqNum: u16, ts: u32, rnd: byte, noise: seq<byte>)
    requires aead.Lawful() && |noise| == PadCount(NewConfig(video, ssrc), rnd)
    ensures var f := Frame(aead, key, payload, NewConfig(video, ssrc), seqNum, ts, noise);
            && f[1] as int == (if video then 96 else 111)
            && |payload| + 29 <= |f| <= |payload| + (if video then 88 else 52)
  {
    FrameShape(aead, key, payload, NewConfig(video, ssrc), seqNum, ts, noise);
    FrameGrowth(aead, key, payload, NewConfig(video, ssrc), seqNum, ts, rnd, noise);
  }

  /** Recognised are datagrams of 13 octets or more of version 2 with one of the two payload types, marked or not. */
  lemma OnlyOursAreRecognised(wire: seq<byte>)
    ensures IsRtp(wire) <==> |wire| >= 13 && 0x80 <= wire[0] < 0xC0 && wire[1] as int in {96, 111, 224, 239}
  {}

  /** A header as other peers may write it: with or without padding and the 12 octets of an extension. */
  function PeerHeader(padded: bool, ext: Option<seq<byte>>, cfg: Config, seqNum: u16, ts: u32): seq<byte> {
    var first: byte := 0x80 + (if padded then 0x20 else 0) + (if ext.Some? then 0x10 else 0);
    [first] + Header(cfg, seqNum, ts)[1..] + if ext.Some? then ext.value else []
  }

  /** Frames with an extended header, and frames without padding, are understood as well. */
  lemma PeerFramesDecode(aead: Aead, key: seq<byte>, payload: seq<byte>, cfg: Config, seqNum: u16, ts: u32,
                         padded: bool, ext: Option<seq<byte>>, padding: seq<byte>, dstLen: nat)
    requires aead.Lawful() && |key| == 32 && payload != [] && |payload| <= dstLen
    requires ext.Some? ==> |ext.value| == 12
    requires if padded then padding != [] && padding[|padding| - 1] as int == |padding| else padding == []
    ensures var h := PeerHeader(padded, ext, cfg, seqNum, ts);
            var wire := h + aead.seal(key, BuildNonce(cfg.ssrc, seqNum, ts), payload, h) + padding;
            Decode(aead, key, wire, dstLen) == Ok(payload)
  {
    var h := PeerHeader(padded, ext, cfg, seqNum, ts);
    var sealed := aead.seal(key, BuildNonce(cfg.ssrc, seqNum, ts), payload, h);
    var wire := h + sealed + padding;
    assert wire[0] == h[0] && HeaderLen(wire) == |h| && Padded(wire) == padded;
    PeerNonce(wire, padded, ext, cfg, seqNum, ts);
    assert wire[..|h|] == h && wire[|h|..|h| + |sealed|] == sealed;
    assert padded ==> wire[|wire| - 1] == padding[|padding| - 1];
  }

  lemma PeerNonce(wire: seq<byte>, padded: bool, ext: Option<seq<byte>>, cfg: Config, seqNum: u16, ts: u32)
    requires ext.Some? ==> |ext.value| == 12
    requires var h := PeerHeader(padded, ext, cfg, seqNum, ts); |wire| >= |h| && wire[..|h|] == h
    ensures |wire| >= 12 && WireNonce(wire) == BuildNonce(cfg.ssrc, seqNum, ts)
  {
    var h, own := PeerHeader(padded, ext, cfg, seqNum, ts), Header(cfg, seqNum, ts);
    forall i | 1 <= i < 12 ensures wire[i] == own[i] {
      assert wire[i] == h[i] == own[i];
    }
    SameFields(wire, own);
    NonceTravels(own, cfg, seqNum, ts);
  }

  /** The first octet of the header has no part in the nonce. */
  lemma SameFields(a: seq<byte>, b: seq<byte>)
    requires |a| >= 12 && |b| >= 12 && forall i :: 1 <= i < 12 ==> a[i] == b[i]
    ensures WireNonce(a) == WireNonce(b)
  {
    assert a[2..4] == b[2..4];
    assert a[4..8] == b[4..8];
    assert a[8..12] == b[8..12];
  }

  /**
   Unwrapping a frame gives back its payload exactly when the padding count fits
   the length byte; with 255 random bytes the count would wrap to 0 and the frame
   be refused.
   */
  lemma RoundTrip(aead: Aead, key: seq<byte>, payload: seq<byte>, cfg: Config,
                    seqNum: u16, ts: u32, noise: seq<byte>, dstLen: nat)
    requires aead.Lawful() && |key| == KEY_LEN && payload != [] && |payload| <= dstLen && |noise| < 256
    ensures Decode(aead, key, Frame(aead, key, payload, cfg, seqNum, ts, noise), dstLen)
         == if |noise| < 255 then Ok(payload) else Err(BadPadding)
  {
    var f := Frame(aead, key, payload, cfg, seqNum, ts, noise);
    FrameShape(aead, key, payload, cfg, seqNum, ts, noise);
    NonceTravels(f, cfg, seqNum, ts);
    assert f[0] == Header(cfg, seqNum, ts)[0] == 0xA0;
    assert HeaderLen(f) == HEADER_LEGACY && Padded(f);
  }

  /** The configurations in use never come near that limit, and their frames are recognised. */
  lemma RoundTripInUse(aead: Aead, key: seq<byte>, payload: seq<byte>, video: bool, ssrc: u32,
                         seqNum: u16, ts: u32, rnd: byte, noise: seq<byte>, dstLen: nat)
    requires aead.Lawful() && |key| == KEY_LEN && payload != [] && |payload| <= dstLen
    requires |noise| == PadCount(NewConfig(video, ssrc), rnd)
    ensures var f := Frame(aead, key, payload, NewConfig(video, ssrc), seqNum, ts, noise);
            IsRtp(f) && Decode(aead, key, f, dstLen) == Ok(payload)
  {
    var cfg := NewConfig(video, ssrc);
    var f := Frame(aead, key, payload, cfg, seqNum, ts, noise);
    RoundTrip(aead, key, payload, cfg, seqNum, ts, noise, dstLen);
    FrameShape(aead, key, payload, cfg, seqNum, ts, noise);
    assert f[0] == f[..HEADER_LEGACY][0] == 0xA0 && f[1] == f[..HEADER_LEGACY][1] == cfg.payloadType;
  }

  /** Framing adds from 29 to 28 + paddingMax bytes; both ends occur. */
  lemma FrameGrowth(aead: Aead, key: seq<byte>, payload: seq<byte>, cfg: Config,
                      seqNum: u16, ts: u32, rnd: byte, noise: seq<byte>)
    requires aead.Lawful() && 0 < cfg.paddingMax < 256 && |noise| == PadCount(cfg, rnd)
    ensures |payload| + 29 <= |Frame(aead, key, payload, cfg, seqNum, ts, noise)| <= |payload| + 28 + cfg.paddingMax
    ensures rnd == 0 ==> |Frame(aead, key, payload, cfg, seqNum, ts, noise)| == |payload| + 29
    ensures rnd == cfg.paddingMax - 1 ==>
            |Frame(aead, key, payload, cfg, seqNum, ts, noise)| == |payload| + 28 + cfg.paddingMax
  {
    FrameShape(aead, key, payload, cfg, seqNum, ts, noise);
  }

  /** Whatever the random byte is, the frame is no longer than that. */
  ghost predicate AllFramesFit(aead: Aead, key: seq<byte>, payload: seq<byte>, cfg: Config,
                                 seqNum: u16, ts: u32, room: nat) {
    forall rnd: byte, noise: seq<byte> :: |noise| == PadCount(cfg, rnd) ==>
      |Frame(aead, key, payload, cfg, seqNum, ts, noise)| <= room
  }

  /**
   Every frame of a payload fits the buffer that a reader of n bytes sets aside
   exactly when the payload has at most n + 28 bytes in audio mode, n - 8 in video
   mode.
   */
  lemma FitsReadBuffer(aead: Aead, key: seq<byte>, payload: seq<byte>, video: bool, ssrc: u32,
                        seqNum: u16, ts: u32, n: nat)
    requires aead.Lawful()
    ensures AllFramesFit(aead, key, payload, NewConfig(video, ssrc), seqNum, ts, n + READ_SLACK)
       <==> |payload| <= (if video then n - 8 else n + 28)
  {
    var cfg := NewConfig(video, ssrc);
    var worst: byte := cfg.paddingMax - 1;
    var noise: seq<byte> := seq(cfg.paddingMax - 1, _ => 0);
    FrameGrowth(aead, key, payload, cfg, seqNum, ts, worst, noise);
    forall rnd: byte, noise': seq<byte> | |noise'| == PadCount(cfg, rnd)
      ensures |Frame(aead, key, payload, cfg, seqNum, ts, noise')| <= |payload| + 28 + cfg.paddingMax
    {
      FrameGrowth(aead, key, payload, cfg, seqNum, ts, rnd, noise');
    }
  }

  /** A datagram taken apart: header, ciphertext, padding. */
  ghost predicate Parses(wire: seq<byte>, h: nat, cipher: seq<byte>, pad: nat) {
    && |wire| >= HEADER_LEGACY + 1 && wire[0] / 0x40 == 2 && h == HeaderLen(wire)
    && h + |cipher| + pad == |wire| && wire[h..h + |cipher|] == cipher
    && |cipher| > OVERHEAD
    && (if Padded(wire) then pad == wire[|wire| - 1] && pad > 0 else pad == 0)
  }

  /**
   A receiver accepts a datagram exactly when it parses and its ciphertext opens
   under the header's nonce with the header as associated data; what it reports
   is never empty and never more than there is room for.
   */
  lemma DecodeAccepts(aead: Aead, key: seq<byte>, wire: seq<byte>, dstLen: nat, p: seq<byte>)
    requires aead.Lawful() && |key| == KEY_LEN
    ensures Decode(aead, key, wire, dstLen) == Ok(p)
       <==> |p| <= dstLen && exists h: nat, cipher, pad: nat ::
              Parses(wire, h, cipher, pad) && aead.open(key, WireNonce(wire), cipher, wire[..h]) == Some(p)
    ensures Decode(aead, key, wire, dstLen) == Ok(p) ==> 0 < |p| <= dstLen
  {
    if Decode(aead, key, wire, dstLen) == Ok(p) {
      var h := HeaderLen(wire);
      var pad := if Padded(wire) then wire[|wire| - 1] else 0;
      assert Parses(wire, h, wire[h..|wire| - pad], pad);
    }
  }

  // ---------------------------------------------------------------------
  // The code that fills buffers in place
  // ---------------------------------------------------------------------

  class ObfsState {
    const initSeq: u16
    const initTs: u32
    var count: u64
    /** How many counter values have been handed out. */
    ghost var issued: nat

    ghost predicate Valid()
      reads this
    {
      count == issued % TWO64
    }

    constructor (initSeq: u16, initTs: u32)
      ensures Valid() && issued == 0 && this.initSeq == initSeq && this.initTs == initTs
    {
      this.initSeq, this.initTs, count, issued := initSeq, initTs, 0, 0;
    }

    /** The part under the state's mutex: nobody else gets the same counter value before it wraps. */
    method Next() returns (c: u64)
      requires Valid()
      modifies this
      ensures Valid() && issued == old(issued) + 1
      ensures c == old(issued) % TWO64
    {
      c := count;
      count := (count + 1) % TWO64;
      issued := issued + 1;
    }
  }

  /** Writes s into out at position at. */
  method CopyInto(out: array<byte>, at: nat, s: seq<byte>)
    requires at + |s| <= out.Length
    modifies out
    ensures out[..at + |s|] == old(out[..at]) + s
    ensures out[at + |s|..] == old(out[at + |s|..])
  {
    for i := 0 to |s|
      invariant forall j :: 0 <= j < out.Length ==>
                  out[j] == if at <= j < at + i then s[j - at] else old(out[j])
    {
      out[at + i] := s[i];
    }
  }

  /** Lays the parts of a frame out in one buffer, the padding count last. */
  method FillFrame(h: seq<byte>, sealed: seq<byte>, noise: seq<byte>, outLen: nat) returns (out: array<byte>)
    requires outLen == |h| + |sealed| + |noise| + 1
    ensures fresh(out) && out[..] == h + sealed + noise + [(|noise| + 1) % 0x100]
  {
    out := new byte[outLen](_ => 0);
    CopyInto(out, 0, h);
    CopyInto(out, |h|, sealed);
    CopyInto(out, |h| + |sealed|, noise);
    assert out[..outLen - 1] == h + sealed + noise;
    out[outLen - 1] := (|noise| + 1) % 0x100;
    assert out[..] == out[..outLen - 1] + [out[outLen - 1]];
  }

  /** Frames a payload; the n-th frame of a state is built around the n-th nonce. */
  method WrapPacket(aead: Aead, key: seq<byte>, payload: seq<byte>, cfg: Config,
                    state: ObfsState, rnd: byte, noise: seq<byte>)
    returns (r: Result<array<byte>, Error>)
    requires aead.Lawful() && state.Valid() && |noise| == PadCount(cfg, rnd)
    modifies state
    ensures state.Valid()
    ensures |key| != KEY_LEN ==> r == Err(BadKey)
    ensures |key| == KEY_LEN && payload == [] ==> r == Err(EmptyPayload)
    ensures r.Err? ==> state.issued == old(state.issued)
    ensures |key| == KEY_LEN && payload != [] ==>
              && r.Ok? && fresh(r.value) && state.issued == old(state.issued) + 1
              && var c := old(state.issued) % TWO64;
                 r.value[..] == Frame(aead, key, payload, cfg, SeqNum(state.initSeq, c),
                                         Timestamp(state.initTs, c), noise)
  {
    if |key| != KEY_LEN {
      return Err(BadKey);
    }
    if |payload| == 0 {
      return Err(EmptyPayload);
    }
    var c := state.Next();
    var seqNum, ts := SeqNum(state.initSeq, c), Timestamp(state.initTs, c);
    var h := Header(cfg, seqNum, ts);
    var sealed := aead.seal(key, BuildNonce(cfg.ssrc, seqNum, ts), payload, h);
    var out := FillFrame(h, sealed, noise, HEADER_LEGACY + |payload| + OVERHEAD + |noise| + 1);
    r := Ok(out);
  }

  /** Unwraps a datagram into dst and reports how many bytes it wrote. */
  method UnwrapPacket(aead: Aead, key: seq<byte>, wire: seq<byte>, dst: array<byte>) returns (r: Result<nat, Error>)
    requires aead.Lawful()
    modifies dst
    ensures match Decode(aead, key, wire, dst.Length)
            case Err(e) => r == Err(e) && (e != AuthFailed ==> dst[..] == old(dst[..]))
            case Ok(p) => r == Ok(|p|) && |p| <= dst.Length && dst[..] == p + old(dst[|p|..])
  {
    if |key| != KEY_LEN {
      return Err(BadKey);
    }
    if |wire| < HEADER_LEGACY + 1 {
      return Err(TooShort);
    }
    if wire[0] / 0x40 != 2 {
      return Err(NotRtp);
    }
    var headerLen := HEADER_LEGACY;
    if Extended(wire) {
      headerLen := HEADER_FULL;
    }
    if |wire| < headerLen + 1 {
      return Err(TooShortForExtension);
    }
    var nonce := WireNonce(wire);
    var payloadEnd := |wire|;
    if Padded(wire) {
      var padLen := wire[|wire| - 1];
      if padLen == 0 || padLen > payloadEnd - headerLen {
        return Err(BadPadding);
      }
      payloadEnd := payloadEnd - padLen;
    }
    var ciphertextLen := payloadEnd - headerLen;
    if ciphertextLen <= OVERHEAD {
      return Err(NoPayload);
    }
    if ciphertextLen - OVERHEAD > dst.Length {
      return Err(DstTooSmall);
    }
    match aead.open(key, nonce, wire[headerLen..payloadEnd], wire[..headerLen]) {
      case None => r := Err(AuthFailed);
      case Some(plain) =>
        CopyInto(dst, 0, plain);
        assert dst[..] == dst[..|plain|] + dst[|plain|..];
        r := Ok(|plain|);
    }
  }

  /** What a read of n bytes sees of a datagram. */
  function Received(wire: seq<byte>, n: nat): seq<byte> {
    if |wire| <= n + READ_SLACK then wire else wire[..n + READ_SLACK]
  }

  predicate Accepted(aead: Aead, key: seq<byte>, wire: seq<byte>, n: nat) {
    IsRtp(Received(wire, n)) && Decode(aead, key, Received(wire, n), n).Ok?
  }

  /** Reads datagrams until one of them is ours; `used` datagrams are consumed. */
  method ReadDirect(aead: Aead, key: seq<byte>, wires: seq<seq<byte>>, dst: array<byte>)
    returns (r: Option<nat>, used: nat)
    requires aead.Lawful()
    modifies dst
    ensures used <= |wires|
    ensures r.None? ==> used == |wires| && forall i :: 0 <= i < used ==> !Accepted(aead, key, wires[i], dst.Length)
    ensures r.Some? ==>
              && used > 0 && Accepted(aead, key, wires[used - 1], dst.Length)
              && (forall i :: 0 <= i < used - 1 ==> !Accepted(aead, key, wires[i], dst.Length))
              && r.value <= dst.Length
              && Decode(aead, key, Received(wires[used - 1], dst.Length), dst.Length) == Ok(dst[..r.value])
  {
    used := 0;
    while used < |wires|
      invariant used <= |wires|
      invariant forall i :: 0 <= i < used ==> !Accepted(aead, key, wires[i], dst.Length)
    {
      var wire := Received(wires[used], dst.Length);
      used := used + 1;
      if IsRtp(wire) {
        var u := UnwrapPacket(aead, key, wire, dst);
        if u.Ok? {
          return Some(u.value), used;
        }
      }
    }
    r := None;
  }

  /** A payload that leaves room for the padding reaches a direct reader whole, whatever the padding. */
  lemma DirectDelivery(aead: Aead, key: seq<byte>, payload: seq<byte>, video: bool, ssrc: u32,
                         seqNum: u16, ts: u32, rnd: byte, noise: seq<byte>, n: nat)
    requires aead.Lawful() && |key| == KEY_LEN && payload != []
    requires |payload| <= (if video then n - 8 else n)
    requires |noise| == PadCount(NewConfig(video, ssrc), rnd)
    ensures var f := Frame(aead, key, payload, NewConfig(video, ssrc), seqNum, ts, noise);
            Accepted(aead, key, f, n) && Decode(aead, key, Received(f, n), n) == Ok(payload)
  {
    RoundTripInUse(aead, key, payload, video, ssrc, seqNum, ts, rnd, noise, n);
    FrameGrowth(aead, key, payload, NewConfig(video, ssrc), seqNum, ts, rnd, noise);
  }
}
