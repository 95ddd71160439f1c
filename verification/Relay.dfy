/**
 The relay's packet step: an ordered pipeline of size check, rate limit, header decoding,
 authentication, replay check, decryption and routing. The packet cryptography is a record
 of functions about which only the laws stated in `LawfulSphinx` are used.
 */
module RelayModel {
  import opened Prelude
  import opened ReplayQueue
  import opened RateLimit
  import opened Replay
  import opened NoiseFraming

  const HEADER_LEN: nat := 384

  const MAX_HOP_DELAY: nat := 30 * SECOND

  type NodeId = Bytes

  datatype Header = Header(version: nat, alpha: Bytes, gamma: Key, sealed: Bytes)

  datatype RoutingRecord = RoutingRecord(
    nextIp: nat,
    nextPort: nat,
    nextNode: NodeId,
    delayMicros: nat,
    lastHop: bool,
    viaRendezvous: bool)

  datatype SubKeys = SubKeys(routing: Bytes, payload: Bytes)

  datatype Peeled = Layer(record: RoutingRecord, next: Header) | MacFailed | Undecodable

  datatype Sphinx = Sphinx(
    legacyVersion: nat,
    encode: Header -> Bytes,
    decode: Bytes -> Option<Header>,
    publicKey: Bytes -> NodeId,
    agree: (Bytes, Bytes) -> Bytes,
    subKeys: Bytes -> Option<SubKeys>,
    peel: (Header, SubKeys) -> Peeled,
    encrypt: (Bytes, Bytes) -> Bytes,
    decrypt: (Bytes, Bytes) -> Bytes)

  /** Encoded headers have a fixed size; the wide-block cipher keeps lengths and is undone. */
  ghost predicate LawfulSphinx(x: Sphinx) {
    && (forall h :: |x.encode(h)| == HEADER_LEN)
    && (forall k, b :: |x.encrypt(k, b)| == |b| && x.decrypt(k, x.encrypt(k, b)) == b)
    && (forall k, b :: |x.decrypt(k, b)| == |b|)
  }

  datatype DropReason = BadMac | ReplayedPacket | Malformed | PolicyDenied | RateLimited

  datatype Outcome =
    | Drop(reason: DropReason)
    | Forward(ip: nat, port: nat, node: NodeId, delay: nat, viaRendezvous: bool, packet: Bytes)
    | DeliverLocal(delay: nat, payload: Bytes)

  /**
   A packet and what the environment adds: the clock as the limiter and then the replay
   cache read it, and the delay the relay would sample itself.
   */
  datatype Arrived = Arrived(bytes: Bytes, checkedAt: nat, seenAt: nat, sampled: nat)

  datatype RelayConfig = RelayConfig(sk: Bytes, ttl: nat, maxSize: nat, acceptV2: bool)

  datatype RelayState = RelayState(limiter: Limiter, queue: seq<Entry>, v2Accepted: nat)

  datatype Processed = Processed(outcome: Outcome, state: RelayState)

  // ------------------------------------------------------------------ on values

  datatype Verified =
    | Unverified(reason: DropReason)
    | Authentic(header: Header, keys: SubKeys, record: RoutingRecord, next: Header)

  predicate IsLegacy(x: Sphinx, bytes: Bytes) {
    && |bytes| >= HEADER_LEN && x.decode(bytes[..HEADER_LEN]).Some?
    && x.decode(bytes[..HEADER_LEN]).value.version == x.legacyVersion
  }

  /** A header that the relay does not turn away for its version. */
  predicate AcceptsVersion(x: Sphinx, c: RelayConfig, header: Header) {
    header.version != x.legacyVersion || c.acceptV2
  }

  /** Decoding and authentication of a packet of the right size; it depends on no state. */
  function Verify(x: Sphinx, c: RelayConfig, bytes: Bytes): Verified
    requires |bytes| == PACKET_SIZE
  {
    match x.decode(bytes[..HEADER_LEN])
    case None => Unverified(Malformed)
    case Some(header) =>
      if header.version == x.legacyVersion && !c.acceptV2 then Unverified(Malformed)
      else
        match x.subKeys(x.agree(c.sk, header.alpha))
        case None => Unverified(Malformed)
        case Some(keys) =>
          match x.peel(header, keys)
          case MacFailed => Unverified(BadMac)
          case Undecodable => Unverified(Malformed)
          case Layer(record, next) => Authentic(header, keys, record, next)
  }

  function HopDelay(record: RoutingRecord, sampled: nat): nat {
    if record.delayMicros == 0 then sampled else Min(record.delayMicros * 1000, MAX_HOP_DELAY)
  }

  /** What becomes of an authentic packet that is not a replay. */
  function Route(x: Sphinx, c: RelayConfig, v: Verified, a: Arrived): Outcome
    requires v.Authentic? && |a.bytes| == PACKET_SIZE
  {
    var delay, payload := HopDelay(v.record, a.sampled), x.decrypt(v.keys.payload, a.bytes[HEADER_LEN..]);
    if v.record.lastHop then DeliverLocal(delay, payload)
    else if v.record.nextNode == x.publicKey(c.sk) then Drop(PolicyDenied)
    else
      Forward(v.record.nextIp, v.record.nextPort, v.record.nextNode, delay, v.record.viaRendezvous,
              x.encode(v.next) + payload)
  }

  function Counted(x: Sphinx, c: RelayConfig, st: RelayState, bytes: Bytes): RelayState {
    if IsLegacy(x, bytes) && c.acceptV2 then st.(v2Accepted := SatAdd(st.v2Accepted, 1)) else st
  }

  /** The replay check's answer decides an authentic packet. */
  function Settle(x: Sphinx, c: RelayConfig, st: RelayState, v: Verified, a: Arrived, replay: Verdict): Processed
    requires v.Authentic? && |a.bytes| == PACKET_SIZE
  {
    Processed(if replay.check == Replay then Drop(ReplayedPacket) else Route(x, c, v, a), st.(queue := replay.queue))
  }

  /** The pipeline behind the limiter. */
  function Admit(x: Sphinx, c: RelayConfig, st: RelayState, a: Arrived): Processed
    requires |a.bytes| == PACKET_SIZE
  {
    var st', v := Counted(x, c, st, a.bytes), Verify(x, c, a.bytes);
    if v.Unverified? then Processed(Drop(v.reason), st')
    else Settle(x, c, st', v, a, CheckAndInsert(st.queue, v.header.gamma, a.seenAt, c.ttl, c.maxSize))
  }

  /** The limiter's answer comes first. */
  function Gate(x: Sphinx, c: RelayConfig, st: RelayState, a: Arrived, checked: Checked): Processed
    requires |a.bytes| == PACKET_SIZE
  {
    if checked.decision != Allow then Processed(Drop(RateLimited), st)
    else Admit(x, c, st.(limiter := checked.next), a)
  }

  function Process(x: Sphinx, c: RelayConfig, st: RelayState, a: Arrived): Processed {
    if |a.bytes| != PACKET_SIZE then Processed(Drop(Malformed), st)
    else Gate(x, c, st, a, Check(st.limiter, a.checkedAt))
  }

  // ------------------------------------------------------------------- in place

  /** `copy_from_slice` into part of a buffer. */
  method CopyInto(buf: array<byte>, at: nat, src: Bytes)
    requires at + |src| <= buf.Length
    modifies buf
    ensures buf[..] == old(buf[..at]) + src + old(buf[at + |src|..])
  {
    for i := 0 to |src|
      invariant forall j :: 0 <= j < i ==> buf[at + j] == src[j]
      invariant forall j :: 0 <= j < buf.Length && !(at <= j < at + i) ==> buf[j] == old(buf[j])
    {
      buf[at + i] := src[i];
    }
  }

  class Relay {
    const sphinx: Sphinx
    const config: RelayConfig
    const replayCache: ReplayCache
    const rateLimiter: RateLimiter
    var v2Accepted: nat

    ghost predicate Valid()
      reads this, replayCache
    {
      replayCache.Valid() && replayCache.ttl == config.ttl && replayCache.maxSize == config.maxSize
    }

    function View(): RelayState
      reads this, replayCache, rateLimiter
    {
      RelayState(rateLimiter.View(), replayCache.queue, v2Accepted)
    }

    constructor (sphinx: Sphinx, config: RelayConfig, maxPps: real, budget: u64, refilled: nat, begun: nat)
      ensures Valid() && fresh(replayCache) && fresh(rateLimiter)
      ensures this.sphinx == sphinx && this.config == config
      ensures View() == RelayState(NewLimiter(maxPps, budget, refilled, begun), [], 0)
    {
      var cache := new ReplayCache(config.maxSize, config.ttl);
      var limiter := new RateLimiter(maxPps, budget, refilled, begun);
      this.sphinx, this.config, replayCache, rateLimiter, v2Accepted := sphinx, config, cache, limiter, 0;
    }

    /** The forwarded packet: the next header, then the decrypted payload, in a buffer of packet size. */
    method NextPacket(next: Header, payload: Bytes) returns (packet: Bytes)
      requires LawfulSphinx(sphinx) && |payload| == PACKET_SIZE - HEADER_LEN
      ensures packet == sphinx.encode(next) + payload
    {
      var buf := new byte[PACKET_SIZE](_ => 0);
      var head := sphinx.encode(next);
      CopyInto(buf, 0, head);
      assert buf[..HEADER_LEN] == head;
      CopyInto(buf, HEADER_LEN, payload);
      packet := buf[..];
      assert packet == head + payload + [];
    }

    /** Header decoding, the legacy gate, key agreement and the MAC. */
    method VerifyPacket(bytes: Bytes) returns (v: Verified)
      requires |bytes| == PACKET_SIZE
      modifies this`v2Accepted
      ensures v == Verify(sphinx, config, bytes)
      ensures View() == Counted(sphinx, config, old(View()), bytes)
    {
      var header: Header;
      match sphinx.decode(bytes[..HEADER_LEN])
      case None => return Unverified(Malformed);
      case Some(h) => header := h;
      if header.version == sphinx.legacyVersion {
        if !config.acceptV2 {
          return Unverified(Malformed);
        }
        v2Accepted := SatAdd(v2Accepted, 1);
      }
      match sphinx.subKeys(sphinx.agree(config.sk, header.alpha))
      case None => return Unverified(Malformed);
      case Some(keys) =>
        match sphinx.peel(header, keys)
        case MacFailed => return Unverified(BadMac);
        case Undecodable => return Unverified(Malformed);
        case Layer(record, next) => return Authentic(header, keys, record, next);
    }

    /** Delay, decryption and dispatch of a packet that is neither forged nor replayed. */
    method RoutePacket(v: Verified, a: Arrived) returns (outcome: Outcome)
      requires LawfulSphinx(sphinx) && v.Authentic? && |a.bytes| == PACKET_SIZE
      ensures outcome == Route(sphinx, config, v, a)
    {
      var delay := HopDelay(v.record, a.sampled);
      var payload := sphinx.decrypt(v.keys.payload, a.bytes[HEADER_LEN..]);
      if v.record.lastHop {
        return DeliverLocal(delay, payload);
      }
      var packet := NextPacket(v.next, payload);
      if v.record.nextNode == sphinx.publicKey(config.sk) {
        return Drop(PolicyDenied);
      }
      outcome := Forward(v.record.nextIp, v.record.nextPort, v.record.nextNode, delay, v.record.viaRendezvous, packet);
    }

    /** The replay check of an authentic packet, and its routing if it is not a replay. */
    method SettlePacket(v: Verified, a: Arrived) returns (outcome: Outcome)
      requires Valid() && LawfulSphinx(sphinx) && v.Authentic? && |a.bytes| == PACKET_SIZE
      modifies replayCache
      ensures Valid() && v2Accepted == old(v2Accepted)
      ensures Processed(outcome, View()) ==
              Settle(sphinx, config, old(View()), v, a,
                     CheckAndInsert(old(replayCache.queue), v.header.gamma, a.seenAt, config.ttl, config.maxSize))
    {
      ghost var replay := CheckAndInsert(replayCache.queue, v.header.gamma, a.seenAt, config.ttl, config.maxSize);
      var check := replayCache.CheckAndInsertAt(v.header.gamma, a.seenAt);
      assert Verdict(replayCache.queue, check) == replay;
      outcome := Drop(ReplayedPacket);
      if check != Replay {
        outcome := RoutePacket(v, a);
      }
    }

    /** What follows once the limiter has let a packet in. */
    method AdmitPacket(a: Arrived) returns (outcome: Outcome)
      requires Valid() && LawfulSphinx(sphinx) && |a.bytes| == PACKET_SIZE
      modifies this, replayCache
      ensures Valid()
      ensures Processed(outcome, View()) == Admit(sphinx, config, old(View()), a)
    {
      var v := VerifyPacket(a.bytes);
      if v.Unverified? {
        return Drop(v.reason);
      }
      outcome := SettlePacket(v, a);
    }

    /** One packet, from bytes to outcome. */
    method ProcessPacket(a: Arrived) returns (outcome: Outcome)
      requires Valid() && LawfulSphinx(sphinx)
      modifies this, replayCache, rateLimiter
      ensures Valid()
      ensures Processed(outcome, View()) == Process(sphinx, config, old(View()), a)
    {
      if |a.bytes| != PACKET_SIZE {
        return Drop(Malformed);
      }
      var decision := rateLimiter.CheckAt(a.checkedAt);
      if decision != Allow {
        return Drop(RateLimited);
      }
      outcome := AdmitPacket(a);
    }
  }
}
