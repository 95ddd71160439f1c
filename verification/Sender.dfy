/**
 The sender: a path of hops becomes routing records, a wrapped header and a payload under one
 layer of encryption per hop. The header and envelope cryptography are records of functions.
 */
module SenderModel {
  import opened Prelude
  import opened NoiseFraming
  import opened RelayModel

  const MAX_PAYLOAD: nat := PACKET_SIZE - HEADER_LEN

  /** A relay as the directory lists it; `None` where a field does not parse. */
  datatype Descriptor = Descriptor(
    key: Option<NodeId>,
    socket: Option<nat>,
    ip: Option<nat>,
    port: Option<nat>,
    rendezvous: bool)

  datatype RouteSecrets = RouteSecrets(alphas: seq<Bytes>, subs: seq<SubKeys>)

  /** `seed` stands for the randomness drawn; `seenBy` is the header as the `i`-th hop receives it. */
  datatype Wrapping = Wrapping(
    derive: (nat, seq<NodeId>) -> Option<RouteSecrets>,
    wrap: (nat, RouteSecrets, seq<RoutingRecord>) -> Option<Header>,
    seenBy: (nat, RouteSecrets, seq<RoutingRecord>, nat) -> Header)

  datatype ShipError = BadDirectory | Crypto | TooLarge

  datatype Shipment = Shipped(socket: nat, node: NodeId, packet: Bytes) | NotShipped(error: ShipError)

  // ------------------------------------------------------------------ on values

  predicate Keyed(path: seq<Descriptor>) {
    forall i :: 0 <= i < |path| ==> path[i].key.Some?
  }

  function KeysOf(path: seq<Descriptor>): seq<NodeId>
    requires Keyed(path)
  {
    seq(|path|, i requires 0 <= i < |path| => path[i].key.value)
  }

  predicate Reachable(d: Descriptor) {
    d.rendezvous || (d.ip.Some? && d.port.Some?)
  }

  /** Every hop but the first has to be addressed by the one before it. */
  predicate Addressable(path: seq<Descriptor>) {
    forall i :: 1 <= i < |path| ==> Reachable(path[i])
  }

  /** The sender's delay always fits 32 bits and is never zero. */
  function SenderDelay(sampled: nat): (micros: nat)
    ensures 1 <= micros < U32_LIMIT
    ensures 1 <= sampled < U32_LIMIT ==> micros == sampled
    ensures sampled == 0 ==> micros == 1
    ensures sampled >= U32_LIMIT ==> micros == U32_LIMIT - 1
  {
    Max(Min(sampled, U32_LIMIT - 1), 1)
  }

  function LastRecord(micros: nat): RoutingRecord {
    RoutingRecord(0, 0, Zeros(32), micros, true, false)
  }

  function RecordTowards(next: Descriptor, micros: nat): RoutingRecord
    requires next.key.Some? && Reachable(next)
  {
    if next.rendezvous then RoutingRecord(0, 0, next.key.value, micros, false, true)
    else RoutingRecord(next.ip.value, next.port.value, next.key.value, micros, false, false)
  }

  function RecordAt(path: seq<Descriptor>, samples: seq<nat>, i: nat): RoutingRecord
    requires Keyed(path) && Addressable(path) && i < |path| == |samples|
  {
    var micros := SenderDelay(samples[i]);
    if i + 1 < |path| then RecordTowards(path[i + 1], micros) else LastRecord(micros)
  }

  function RecordsOf(path: seq<Descriptor>, samples: seq<nat>): seq<RoutingRecord>
    requires Keyed(path) && Addressable(path) && |path| == |samples|
  {
    seq(|path|, i requires 0 <= i < |path| => RecordAt(path, samples, i))
  }

  /** The payload under every layer, the first hop's outermost. */
  function Onion(x: Sphinx, subs: seq<SubKeys>, body: Bytes): Bytes
    decreases |subs|
  {
    if subs == [] then body else x.encrypt(subs[0].payload, Onion(x, subs[1..], body))
  }

  lemma {:induction false} OnionLength(x: Sphinx, subs: seq<SubKeys>, body: Bytes)
    requires LawfulSphinx(x)
    ensures |Onion(x, subs, body)| == |body|
    decreases |subs|
  {
    if subs == [] {
    } else {
      OnionLength(x, subs[1..], body);
    }
  }

  function Padded(payload: Bytes): (body: Bytes)
    requires |payload| <= MAX_PAYLOAD
    ensures |body| == MAX_PAYLOAD && payload <= body && forall i :: |payload| <= i < |body| ==> body[i] == 0
  {
    payload + Zeros(MAX_PAYLOAD - |payload|)
  }

  /** The packet, its receiver, or the first of the sender's errors. */
  function Ship(x: Sphinx, w: Wrapping, seed: nat, path: seq<Descriptor>, samples: seq<nat>, payload: Bytes): Shipment
    requires 1 <= |path| == |samples| && |payload| <= MAX_PAYLOAD
  {
    if !Keyed(path) then NotShipped(BadDirectory)
    else
      match w.derive(seed, KeysOf(path))
      case None => NotShipped(Crypto)
      case Some(secrets) =>
        if !Addressable(path) then NotShipped(BadDirectory)
        else
          match w.wrap(seed, secrets, RecordsOf(path, samples))
          case None => NotShipped(Crypto)
          case Some(header) =>
            if path[0].socket.None? then NotShipped(BadDirectory)
            else
              Shipped(path[0].socket.value, path[0].key.value,
                      x.encode(header) + Onion(x, secrets.subs, Padded(payload)))
  }

  /**
   What a caller can check before shipping: every key parses, the hop secrets can be derived,
   every hop but the first can be addressed, the header can be wrapped, and the entry's socket parses.
   */
  predicate Shippable(w: Wrapping, seed: nat, path: seq<Descriptor>, samples: seq<nat>)
    requires 1 <= |path| == |samples|
  {
    && Keyed(path) && w.derive(seed, KeysOf(path)).Some? && Addressable(path)
    && w.wrap(seed, w.derive(seed, KeysOf(path)).value, RecordsOf(path, samples)).Some?
    && path[0].socket.Some?
  }

  /** A failure of the cryptography, which comes before what is wrong with the directory later on. */
  predicate CryptoFails(w: Wrapping, seed: nat, path: seq<Descriptor>, samples: seq<nat>)
    requires |path| == |samples|
  {
    && Keyed(path)
    && var secrets := w.derive(seed, KeysOf(path));
       || secrets.None?
       || (Addressable(path) && w.wrap(seed, secrets.value, RecordsOf(path, samples)).None?)
  }

  /**
   When a packet is shipped, to the socket and under the key of the first hop of the path, and
   which error comes otherwise. It never depends on the payload.
   */
  lemma ShipsExactly(x: Sphinx, w: Wrapping, seed: nat, path: seq<Descriptor>, samples: seq<nat>, payload: Bytes)
    requires 1 <= |path| == |samples| && |payload| <= MAX_PAYLOAD
    ensures var shipment := Ship(x, w, seed, path, samples, payload);
            && (shipment.Shipped? <==> Shippable(w, seed, path, samples))
            && (shipment == NotShipped(Crypto) <==> CryptoFails(w, seed, path, samples))
            && (shipment.NotShipped? ==> shipment.error == Crypto || shipment.error == BadDirectory)
            && (shipment.Shipped? ==> path[0].socket == Some(shipment.socket) && path[0].key == Some(shipment.node))
  {
  }

  // ------------------------------------------------------------------- in place

  method CollectKeys(path: seq<Descriptor>) returns (keys: Option<seq<NodeId>>)
    ensures keys == if Keyed(path) then Some(KeysOf(path)) else None
  {
    var found: seq<NodeId> := [];
    for i := 0 to |path|
      invariant |found| == i
      invariant forall j :: 0 <= j < i ==> path[j].key == Some(found[j])
    {
      if path[i].key.None? {
        return None;
      }
      found := found + [path[i].key.value];
    }
    assert found == KeysOf(path);
    return Some(found);
  }

  method BuildRecords(path: seq<Descriptor>, samples: seq<nat>) returns (records: Option<seq<RoutingRecord>>)
    requires Keyed(path) && |path| == |samples|
    ensures records == if Addressable(path) then Some(RecordsOf(path, samples)) else None
  {
    var built: seq<RoutingRecord> := [];
    for i := 0 to |path|
      invariant |built| == i
      invariant forall j :: 1 <= j <= i && j < |path| ==> Reachable(path[j])
      invariant forall j :: 0 <= j < i ==>
        built[j] ==
        if j + 1 < |path| then RecordTowards(path[j + 1], SenderDelay(samples[j]))
        else LastRecord(SenderDelay(samples[j]))
    {
      var rec := RoutingRecord(0, 0, Zeros(32), 0, false, false);
      if i + 1 < |path| {
        var next := path[i + 1];
        rec := rec.(nextNode := next.key.value);
        if next.rendezvous {
          rec := rec.(viaRendezvous := true);
        } else {
          if next.ip.None? || next.port.None? {
            return None;
          }
          rec := rec.(nextIp := next.ip.value, nextPort := next.port.value);
        }
      } else {
        rec := rec.(lastHop := true);
      }
      rec := rec.(delayMicros := SenderDelay(samples[i]));
      built := built + [rec];
    }
    assert built == RecordsOf(path, samples);
    return Some(built);
  }

  /** Encrypts the payload region in place, the last hop's layer first. */
  method EncryptLayers(x: Sphinx, subs: seq<SubKeys>, packet: array<byte>)
    requires LawfulSphinx(x) && packet.Length == PACKET_SIZE
    modifies packet
    ensures packet[..] == old(packet[..HEADER_LEN]) + Onion(x, subs, old(packet[HEADER_LEN..]))
  {
    ghost var head, body := packet[..HEADER_LEN], packet[HEADER_LEN..];
    var i := |subs|;
    assert subs[i..] == [];
    while i > 0
      invariant 0 <= i <= |subs|
      invariant packet[..HEADER_LEN] == head && packet[HEADER_LEN..] == Onion(x, subs[i..], body)
    {
      i := i - 1;
      assert subs[i..][1..] == subs[i + 1..];
      var region := x.encrypt(subs[i].payload, packet[HEADER_LEN..]);
      CopyInto(packet, HEADER_LEN, region);
      assert packet[..HEADER_LEN] == packet[..][..HEADER_LEN] == head;
      assert packet[HEADER_LEN..] == packet[..][HEADER_LEN..] == region;
    }
    assert subs[0..] == subs;
    assert packet[..] == packet[..HEADER_LEN] + packet[HEADER_LEN..];
  }

  method BuildPacket(x: Sphinx, subs: seq<SubKeys>, header: Header, payload: Bytes) returns (packet: Bytes)
    requires LawfulSphinx(x) && |payload| <= MAX_PAYLOAD
    ensures packet == x.encode(header) + Onion(x, subs, Padded(payload))
  {
    var buf := new byte[PACKET_SIZE](_ => 0);
    var head := x.encode(header);
    CopyInto(buf, 0, head);
    CopyInto(buf, HEADER_LEN, payload);
    assert buf[..] == head + Padded(payload);
    assert buf[..HEADER_LEN] == head && buf[HEADER_LEN..] == Padded(payload);
    EncryptLayers(x, subs, buf);
    packet := buf[..];
  }

  method ShipPath(x: Sphinx, w: Wrapping, seed: nat, path: seq<Descriptor>, samples: seq<nat>, payload: Bytes)
    returns (shipment: Shipment)
    requires LawfulSphinx(x) && 1 <= |path| == |samples| && |payload| <= MAX_PAYLOAD
    ensures shipment == Ship(x, w, seed, path, samples, payload)
  {
    var keys := CollectKeys(path);
    if keys.None? {
      return NotShipped(BadDirectory);
    }
    var secrets := w.derive(seed, keys.value);
    if secrets.None? {
      return NotShipped(Crypto);
    }
    var records := BuildRecords(path, samples);
    if records.None? {
      return NotShipped(BadDirectory);
    }
    var header := w.wrap(seed, secrets.value, records.value);
    if header.None? {
      return NotShipped(Crypto);
    }
    var packet := BuildPacket(x, secrets.value.subs, header.value, payload);
    if path[0].socket.None? {
      return NotShipped(BadDirectory);
    }
    shipment := Shipped(path[0].socket.value, path[0].key.value, packet);
  }

  // ------------------------------------------------------- the sealed envelope

  datatype Sealing = Sealing(
    seal: (nat, NodeId, NodeId, Bytes) -> Option<Bytes>,
    unseal: (Bytes, Bytes) -> Option<(NodeId, Bytes)>)

  datatype Framed = Framed(payload: Bytes) | PayloadTooLarge | SealFailed

  /** A prefix with the low 32 bits of the envelope's length, then the envelope. */
  function Frame(envelope: Bytes): Bytes {
    ToBigEndian(|envelope|, 4) + envelope
  }

  function SealAndFrame(s: Sealing, seed: nat, recipient: NodeId, sender: NodeId, body: Bytes): Framed {
    match s.seal(seed, recipient, sender, body)
    case None => SealFailed
    case Some(envelope) => if |Frame(envelope)| > MAX_PAYLOAD then PayloadTooLarge else Framed(Frame(envelope))
  }

  /** What the exit's handler takes for the envelope. */
  function Unframe(payload: Bytes): Option<Bytes> {
    if |payload| < 4 then None
    else
      var length := FromBigEndian(payload[..4]);
      if 4 + length > |payload| then None else Some(payload[4..4 + length])
  }

  /** A message sealed, framed and shipped over a path that was picked. */
  function SendSealed(x: Sphinx, w: Wrapping, s: Sealing, seed: nat, path: seq<Descriptor>, samples: seq<nat>,
                      recipient: NodeId, sender: NodeId, body: Bytes): Shipment
    requires 1 <= |path| == |samples|
  {
    match SealAndFrame(s, seed, recipient, sender, body)
    case SealFailed => NotShipped(Crypto)
    case PayloadTooLarge => NotShipped(TooLarge)
    case Framed(payload) => Ship(x, w, seed, path, samples, payload)
  }

  /** What the handler hands on: the sender and the body, or nothing. */
  function HandleDelivery(s: Sealing, sk: Bytes, payload: Bytes): Option<(NodeId, Bytes)> {
    match Unframe(payload)
    case None => None
    case Some(envelope) => s.unseal(sk, envelope)
  }

  lemma PrefixAndRest(prefix: Bytes, envelope: Bytes, trailing: Bytes)
    requires |prefix| == 4
    ensures (prefix + envelope + trailing)[..4] == prefix
    ensures (prefix + envelope + trailing)[4..4 + |envelope|] == envelope
  {
  }

  lemma PrefixValue(length: nat)
    requires length < U32_LIMIT
    ensures FromBigEndian(ToBigEndian(length, 4)) == length
  {
    Pow256Widths();
    BigEndianRoundTrip(length, 4);
  }

  /** The frame is found again whatever bytes follow it. */
  lemma UnframeOfFrame(envelope: Bytes, trailing: Bytes)
    requires |envelope| < U32_LIMIT
    ensures Unframe(Frame(envelope) + trailing) == Some(envelope)
  {
    PrefixValue(|envelope|);
    PrefixAndRest(ToBigEndian(|envelope|, 4), envelope, trailing);
  }

  /** Conversely, whatever the handler takes for an envelope stands framed at the front of the payload. */
  lemma UnframedIsFramed(payload: Bytes)
    requires Unframe(payload).Some?
    ensures Frame(Unframe(payload).value) <= payload
  {
    var prefix, envelope := payload[..4], Unframe(payload).value;
    BigEndianUnique(prefix);
    assert ToBigEndian(|envelope|, 4) == prefix;
    assert payload == prefix + envelope + payload[4 + |envelope|..];
  }

  /**
   When a message can be framed: exactly if it can be sealed and the envelope has at most 1660
   bytes. The frame is then 4 bytes longer, and the exit finds the envelope in it again,
   whatever padding follows.
   */
  lemma FramesExactly(s: Sealing, seed: nat, recipient: NodeId, sender: NodeId, body: Bytes)
    ensures var sealed, framed := s.seal(seed, recipient, sender, body), SealAndFrame(s, seed, recipient, sender, body);
            && (framed.SealFailed? <==> sealed.None?)
            && (framed.Framed? <==> sealed.Some? && |sealed.value| <= 1660)
            && (framed.Framed? ==>
                  && |framed.payload| == |sealed.value| + 4
                  && forall trailing: Bytes :: Unframe(framed.payload + trailing) == sealed)
  {
    var sealed := s.seal(seed, recipient, sender, body);
    if sealed.Some? && |sealed.value| <= 1660 {
      forall trailing: Bytes ensures Unframe(Frame(sealed.value) + trailing) == sealed {
        UnframeOfFrame(sealed.value, trailing);
      }
    }
  }

  /** When a message goes out, and which error comes otherwise. */
  lemma SendsExactly(x: Sphinx, w: Wrapping, s: Sealing, seed: nat, path: seq<Descriptor>, samples: seq<nat>,
                     recipient: NodeId, sender: NodeId, body: Bytes)
    requires 1 <= |path| == |samples|
    ensures var sealed := s.seal(seed, recipient, sender, body);
            var shipment := SendSealed(x, w, s, seed, path, samples, recipient, sender, body);
            var fits := sealed.Some? && |sealed.value| <= 1660;
            && (shipment.Shipped? <==> fits && Shippable(w, seed, path, samples))
            && (shipment == NotShipped(TooLarge) <==> sealed.Some? && !fits)
            && (shipment == NotShipped(Crypto) <==> sealed.None? || (fits && CryptoFails(w, seed, path, samples)))
  {
    FramesExactly(s, seed, recipient, sender, body);
    if s.seal(seed, recipient, sender, body).Some? && |s.seal(seed, recipient, sender, body).value| <= 1660 {
      ShipsExactly(x, w, seed, path, samples, SealAndFrame(s, seed, recipient, sender, body).payload);
    }
  }
}
