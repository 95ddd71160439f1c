/**
 A packet's whole journey: the packet that the sender builds is peeled by one relay after
 the other. The header cryptography enters only through the laws in `LawfulWrapping`.
 */
module Delivery {
  import opened Prelude
  import opened ReplayQueue
  import opened RateLimit
  import opened NoiseFraming
  import opened RelayModel
  import opened Travels
  import opened SenderModel

  // ---------------------------------------------------------------------- laws

  /** The holder of each private key derives the sender's keys for its hop. */
  ghost predicate DerivedFor(x: Sphinx, keys: seq<NodeId>, secrets: RouteSecrets) {
    && |secrets.alphas| == |keys| && |secrets.subs| == |keys|
    && forall i, sk :: 0 <= i < |keys| && x.publicKey(sk) == keys[i] ==>
         x.subKeys(x.agree(sk, secrets.alphas[i])) == Some(secrets.subs[i])
  }

  /** The `i`-th hop finds a decodable header, its own record and the header for the next hop. */
  ghost predicate UnwrapsAt(
    x: Sphinx, w: Wrapping, seed: nat, secrets: RouteSecrets, records: seq<RoutingRecord>, i: nat)
    requires i < |records| && |secrets.alphas| == |records| && |secrets.subs| == |records|
  {
    var h := w.seenBy(seed, secrets, records, i);
    && x.decode(x.encode(h)) == Some(h) && h.alpha == secrets.alphas[i]
    && x.peel(h, secrets.subs[i]) == Layer(records[i], w.seenBy(seed, secrets, records, i + 1))
  }

  ghost predicate Unwraps(x: Sphinx, w: Wrapping, seed: nat, secrets: RouteSecrets, records: seq<RoutingRecord>)
    requires |secrets.alphas| == |records| && |secrets.subs| == |records|
  {
    && w.wrap(seed, secrets, records) == Some(w.seenBy(seed, secrets, records, 0))
    && forall i :: 0 <= i < |records| ==> UnwrapsAt(x, w, seed, secrets, records, i)
  }

  ghost predicate LawfulWrapping(x: Sphinx, w: Wrapping) {
    && (forall seed, keys :: w.derive(seed, keys).Some? ==> DerivedFor(x, keys, w.derive(seed, keys).value))
    && (forall seed, secrets, records ::
          w.wrap(seed, secrets, records).Some? && |secrets.alphas| == |records| && |secrets.subs| == |records| ==>
            Unwraps(x, w, seed, secrets, records))
  }

  ghost predicate LawfulSealing(x: Sphinx, s: Sealing) {
    forall seed, sk, sender, body :: s.seal(seed, x.publicKey(sk), sender, body).Some? ==>
      s.unseal(sk, s.seal(seed, x.publicKey(sk), sender, body).value) == Some((sender, body))
  }

  // -------------------------------------------------------------------- parcels

  /** A packet with everything its hops will find in it; `headers` has one more than there are hops. */
  datatype Parcel = Parcel(
    keys: seq<NodeId>,
    headers: seq<Header>,
    subs: seq<SubKeys>,
    records: seq<RoutingRecord>,
    body: Bytes)

  /** A key, a header, keys and a record for each hop, and a header to leave with. */
  predicate Whole(p: Parcel) {
    1 <= |p.keys| == |p.subs| == |p.records| == |p.headers| - 1
  }

  ghost predicate Peels(x: Sphinx, p: Parcel, i: nat)
    requires i < |p.keys| == |p.subs| == |p.records| == |p.headers| - 1
  {
    var h := p.headers[i];
    && x.decode(x.encode(h)) == Some(h)
    && x.peel(h, p.subs[i]) == Layer(p.records[i], p.headers[i + 1])
    && (forall sk :: x.publicKey(sk) == p.keys[i] ==> x.subKeys(x.agree(sk, h.alpha)) == Some(p.subs[i]))
    && p.records[i].delayMicros >= 1
    && p.records[i].lastHop == (i == |p.keys| - 1)
    && (i < |p.keys| - 1 ==> p.records[i].nextNode == p.keys[i + 1])
  }

  ghost predicate WellWrapped(x: Sphinx, p: Parcel) {
    && LawfulSphinx(x) && |p.body| == MAX_PAYLOAD
    && Whole(p)
    && forall i :: 0 <= i < |p.keys| ==> Peels(x, p, i)
  }

  /** The packet on its way to hop `i`. */
  function PacketAt(x: Sphinx, p: Parcel, i: nat): Bytes
    requires i < |p.headers| && i <= |p.subs|
  {
    x.encode(p.headers[i]) + Onion(x, p.subs[i..], p.body)
  }

  function DelayAt(p: Parcel, i: nat): nat
    requires i < |p.records|
  {
    Min(p.records[i].delayMicros * 1000, MAX_HOP_DELAY)
  }

  function OutcomeOf(x: Sphinx, p: Parcel, i: nat): Outcome
    requires i < |p.keys| == |p.subs| == |p.records| == |p.headers| - 1
  {
    if i == |p.keys| - 1 then DeliverLocal(DelayAt(p, i), p.body)
    else if p.keys[i] == p.keys[i + 1] then Drop(PolicyDenied)
    else
      var r := p.records[i];
      Forward(r.nextIp, r.nextPort, p.keys[i + 1], DelayAt(p, i), r.viaRendezvous, PacketAt(x, p, i + 1))
  }

  lemma PacketSize(x: Sphinx, p: Parcel, i: nat)
    requires WellWrapped(x, p) && i < |p.headers|
    ensures |PacketAt(x, p, i)| == PACKET_SIZE
    ensures PacketAt(x, p, i)[..HEADER_LEN] == x.encode(p.headers[i])
    ensures PacketAt(x, p, i)[HEADER_LEN..] == Onion(x, p.subs[i..], p.body)
  {
    OnionLength(x, p.subs[i..], p.body);
  }

  lemma HopVerifies(x: Sphinx, p: Parcel, i: nat, c: RelayConfig)
    requires WellWrapped(x, p) && i < |p.keys| && x.publicKey(c.sk) == p.keys[i] && AcceptsVersion(x, c, p.headers[i])
    ensures |PacketAt(x, p, i)| == PACKET_SIZE
    ensures IsLegacy(x, PacketAt(x, p, i)) <==> p.headers[i].version == x.legacyVersion
    ensures Verify(x, c, PacketAt(x, p, i)) == Authentic(p.headers[i], p.subs[i], p.records[i], p.headers[i + 1])
  {
    PacketSize(x, p, i);
    assert Peels(x, p, i);
  }

  /** Each hop takes off its own layer and finds the packet for the next one. */
  lemma HopRoutes(x: Sphinx, p: Parcel, i: nat, c: RelayConfig, a: Arrived)
    requires WellWrapped(x, p) && i < |p.keys| && x.publicKey(c.sk) == p.keys[i]
    requires a.bytes == PacketAt(x, p, i) && |a.bytes| == PACKET_SIZE
    ensures Route(x, c, Authentic(p.headers[i], p.subs[i], p.records[i], p.headers[i + 1]), a) == OutcomeOf(x, p, i)
  {
    PacketSize(x, p, i);
    assert Peels(x, p, i);
    assert p.subs[i..][1..] == p.subs[i + 1..];
    assert x.decrypt(p.subs[i].payload, a.bytes[HEADER_LEN..]) == Onion(x, p.subs[i + 1..], p.body);
    if i == |p.keys| - 1 {
      assert p.subs[i + 1..] == [];
    }
  }

  /** The relay's count of legacy headers once it let in a packet with this one. */
  function LegacyCount(x: Sphinx, st: RelayState, header: Header): nat {
    if header.version == x.legacyVersion then SatAdd(st.v2Accepted, 1) else st.v2Accepted
  }

  /** A relay that accepts the header, does not throttle the packet and does not know its γ does what was planned. */
  lemma HopIsPlanned(x: Sphinx, p: Parcel, i: nat, c: RelayConfig, st: RelayState, a: Arrived, checked: Checked)
    requires WellWrapped(x, p) && i < |p.keys| && x.publicKey(c.sk) == p.keys[i] && a.bytes == PacketAt(x, p, i)
    requires checked.decision == Allow && AcceptsVersion(x, c, p.headers[i])
    requires CheckAndInsert(st.queue, p.headers[i].gamma, a.seenAt, c.ttl, c.maxSize).check == Fresh
    ensures |a.bytes| == PACKET_SIZE
    ensures Gate(x, c, st, a, checked) == Processed(
              OutcomeOf(x, p, i),
              st.(limiter := checked.next,
                  queue := CheckAndInsert(st.queue, p.headers[i].gamma, a.seenAt, c.ttl, c.maxSize).queue,
                  v2Accepted := LegacyCount(x, st, p.headers[i])))
  {
    HopVerifies(x, p, i, c);
    HopRoutes(x, p, i, c, a);
  }

  // ------------------------------------------------------------------- journeys

  datatype Network = Network(configs: map<NodeId, RelayConfig>, states: map<NodeId, RelayState>)

  function At(packet: Bytes, clock: Clock): Arrived {
    Arrived(packet, clock.checkedAt, clock.seenAt, clock.sampled)
  }

  function Put(net: Network, node: NodeId, st: RelayState): Network {
    net.(states := net.states[node := st])
  }

  function Serve(x: Sphinx, net: Network, node: NodeId, packet: Bytes, clock: Clock): Option<Served<Network>> {
    if node !in net.configs || node !in net.states then None
    else
      var done := Process(x, net.configs[node], net.states[node], At(packet, clock));
      Some(Served(done.outcome, Put(net, node, done.state)))
  }

  function Service(x: Sphinx): (Network, NodeId, Bytes, Clock) -> Option<Served<Network>> {
    (net: Network, node: NodeId, packet: Bytes, clock: Clock) => Serve(x, net, node, packet, clock)
  }

  /** Every relay that handles the packet, with what it does to it. */
  function Travel(x: Sphinx, net: Network, node: NodeId, packet: Bytes, clocks: seq<Clock>): seq<Stop> {
    Trip(Service(x), net, node, packet, clocks)
  }

  /** The relay that holds the key of hop `i`, its state when the packet gets there, and the moment. */
  predicate Welcomes(x: Sphinx, net: Network, p: Parcel, i: nat, clock: Clock)
    requires i < |p.keys| && i < |p.headers|
  {
    && p.keys[i] in net.configs && p.keys[i] in net.states
    && var c, st := net.configs[p.keys[i]], net.states[p.keys[i]];
    && x.publicKey(c.sk) == p.keys[i] && AcceptsVersion(x, c, p.headers[i])
    && Check(st.limiter, clock.checkedAt).decision == Allow
    && CheckAndInsert(st.queue, p.headers[i].gamma, clock.seenAt, c.ttl, c.maxSize).check == Fresh
  }

  /** A relay's state after it let a packet in and recorded its γ. */
  function Visited(x: Sphinx, st: RelayState, c: RelayConfig, header: Header, clock: Clock): RelayState {
    st.(limiter := Check(st.limiter, clock.checkedAt).next,
        queue := CheckAndInsert(st.queue, header.gamma, clock.seenAt, c.ttl, c.maxSize).queue,
        v2Accepted := LegacyCount(x, st, header))
  }

  /** The network once hop `i` has handled the packet. */
  function Handled(x: Sphinx, net: Network, p: Parcel, i: nat, clock: Clock): Network
    requires i < |p.keys| && i < |p.headers| && p.keys[i] in net.configs && p.keys[i] in net.states
  {
    Put(net, p.keys[i], Visited(x, net.states[p.keys[i]], net.configs[p.keys[i]], p.headers[i], clock))
  }

  predicate WelcomesAt(x: Sphinx, net: Network, p: Parcel, i: nat, clock: Clock) {
    i < |p.keys| && i < |p.headers| && Welcomes(x, net, p, i, clock)
  }

  function HandledAt(x: Sphinx, net: Network, p: Parcel, i: nat, clock: Clock): Network {
    if i < |p.keys| && i < |p.headers| && p.keys[i] in net.configs && p.keys[i] in net.states
    then Handled(x, net, p, i, clock) else net
  }

  /** The way of the parcel as its sender planned it. */
  function WayOf(x: Sphinx, p: Parcel): Itinerary<Network>
    requires Whole(p)
  {
    Itinerary(
      (k: nat) => if k < |p.keys| then p.keys[k] else [],
      (k: nat) => if k < |p.headers| then PacketAt(x, p, k) else [],
      (k: nat) => if k < |p.keys| then OutcomeOf(x, p, k) else Drop(Malformed),
      (net: Network, k: nat, clock: Clock) => WelcomesAt(x, net, p, k, clock),
      (net: Network, k: nat, clock: Clock) => HandledAt(x, net, p, k, clock))
  }

  /** Every relay on the way welcomes the packet when it gets there. */
  predicate Ready(x: Sphinx, net: Network, p: Parcel, i: nat, clocks: seq<Clock>)
    requires Whole(p)
  {
    Awaits(WayOf(x, p), net, i, clocks)
  }

  /** The hops from `i` on, as planned. */
  function Plan(x: Sphinx, p: Parcel, i: nat): seq<Stop>
    requires Whole(p)
  {
    Planned(WayOf(x, p), i, |p.keys|)
  }

  lemma WelcomedIsPlanned(x: Sphinx, net: Network, p: Parcel, i: nat, clock: Clock)
    requires WellWrapped(x, p) && WelcomesAt(x, net, p, i, clock)
    ensures Serve(x, net, p.keys[i], PacketAt(x, p, i), clock) ==
            Some(Served(OutcomeOf(x, p, i), HandledAt(x, net, p, i, clock)))
  {
    var c, st := net.configs[p.keys[i]], net.states[p.keys[i]];
    HopIsPlanned(x, p, i, c, st, At(PacketAt(x, p, i), clock), Check(st.limiter, clock.checkedAt));
  }

  lemma WayLeadsOn(x: Sphinx, p: Parcel, k: nat)
    requires Whole(p) && k < |p.keys|
    ensures LeadsOn(WayOf(x, p), k, |p.keys|)
  {
  }

  /** The packet makes exactly the planned journey. */
  lemma JourneyIsPlanned(x: Sphinx, net: Network, p: Parcel, i: nat, clocks: seq<Clock>)
    requires WellWrapped(x, p) && i < |p.keys| && |clocks| == |p.keys| - i && Ready(x, net, p, i, clocks)
    ensures Travel(x, net, p.keys[i], PacketAt(x, p, i), clocks) == Plan(x, p, i)
  {
    var serve, way := Service(x), WayOf(x, p);
    forall v, k: nat, clock | k < |p.keys| ensures ServesAsPlanned(serve, way, v, k, clock) {
      if WelcomesAt(x, v, p, k, clock) {
        WelcomedIsPlanned(x, v, p, k, clock);
      }
    }
    forall k: nat | k < |p.keys| ensures LeadsOn(way, k, |p.keys|) {
      WayLeadsOn(x, p, k);
    }
    TripIsPlanned(serve, way, net, i, |p.keys|, clocks);
  }

  predicate AdjacentDistinct(keys: seq<NodeId>) {
    forall k :: 0 <= k < |keys| - 1 ==> keys[k] != keys[k + 1]
  }

  /** The first hop from `i` on that is followed by itself, or else the exit. */
  function LastStop(keys: seq<NodeId>, i: nat): (m: nat)
    requires i < |keys|
    ensures i <= m < |keys| && (m == |keys| - 1 || keys[m] == keys[m + 1])
    ensures forall k :: i <= k < m ==> keys[k] != keys[k + 1]
    decreases |keys| - i
  {
    if i == |keys| - 1 || keys[i] == keys[i + 1] then i else LastStop(keys, i + 1)
  }

  lemma PlanLength(x: Sphinx, p: Parcel)
    requires Whole(p)
    ensures |Plan(x, p, 0)| == LastStop(p.keys, 0) + 1
  {
    var way := WayOf(x, p);
    forall k: nat | k < LastStop(p.keys, 0) ensures Forwards(way, k) {
    }
    PlannedLength(way, 0, LastStop(p.keys, 0), |p.keys|);
  }

  lemma PlanAt(x: Sphinx, p: Parcel, k: nat)
    requires Whole(p) && k < |Plan(x, p, 0)|
    ensures k < |p.keys| && Plan(x, p, 0)[k] == Stop(p.keys[k], OutcomeOf(x, p, k))
  {
    PlannedAt(WayOf(x, p), 0, |p.keys|, k);
  }

  /** Stop `k` is hop `k`, where happens what was planned. */
  ghost predicate Follows(x: Sphinx, p: Parcel, stops: seq<Stop>)
    requires |stops| <= |p.keys| == |p.subs| == |p.records| == |p.headers| - 1
  {
    forall k :: 0 <= k < |stops| ==> stops[k] == Stop(p.keys[k], OutcomeOf(x, p, k))
  }

  lemma PlanFollows(x: Sphinx, p: Parcel)
    requires Whole(p)
    ensures |Plan(x, p, 0)| == LastStop(p.keys, 0) + 1 && Follows(x, p, Plan(x, p, 0))
  {
    PlanLength(x, p);
    forall k | 0 <= k < |Plan(x, p, 0)| ensures Plan(x, p, 0)[k] == Stop(p.keys[k], OutcomeOf(x, p, k)) {
      PlanAt(x, p, k);
    }
  }

  /** `AdjacentDistinct` is what a caller can check: it holds just if no hop but the exit is the last stop. */
  lemma ReachesExit(keys: seq<NodeId>)
    requires keys != []
    ensures AdjacentDistinct(keys) <==> LastStop(keys, 0) == |keys| - 1
  {
  }

  lemma LastOutcome(x: Sphinx, p: Parcel, stops: seq<Stop>)
    requires Whole(p)
    requires |stops| == LastStop(p.keys, 0) + 1 && Follows(x, p, stops)
    ensures AdjacentDistinct(p.keys) <==> stops[|stops| - 1].outcome.DeliverLocal?
    ensures !AdjacentDistinct(p.keys) <==> stops[|stops| - 1].outcome == Drop(PolicyDenied)
  {
    ReachesExit(p.keys);
    assert stops[|stops| - 1].outcome == OutcomeOf(x, p, |stops| - 1);
  }

  /**
   Where a welcomed packet goes: through the hops in path order, each doing what was planned,
   to the exit if no hop is followed by itself, and otherwise to the first such hop.
   */
  lemma Journey(x: Sphinx, net: Network, p: Parcel, clocks: seq<Clock>)
    requires WellWrapped(x, p) && |clocks| == |p.keys| && Ready(x, net, p, 0, clocks)
    ensures var stops, last := Travel(x, net, p.keys[0], PacketAt(x, p, 0), clocks), LastStop(p.keys, 0);
            && |stops| == last + 1 && Follows(x, p, stops)
            && (AdjacentDistinct(p.keys) <==> stops[last].outcome.DeliverLocal?)
            && (!AdjacentDistinct(p.keys) <==> stops[last].outcome == Drop(PolicyDenied))
  {
    JourneyIsPlanned(x, net, p, 0, clocks);
    PlanFollows(x, p);
    LastOutcome(x, p, Plan(x, p, 0));
  }

  // ------------------------------------------------------------- from end to end

  function HeadersOf(w: Wrapping, seed: nat, secrets: RouteSecrets, records: seq<RoutingRecord>, n: nat): seq<Header> {
    seq(n, i requires 0 <= i => w.seenBy(seed, secrets, records, i))
  }

  /** What the sender put into a packet that it shipped. */
  function ParcelOf(w: Wrapping, seed: nat, path: seq<Descriptor>, samples: seq<nat>, payload: Bytes): Parcel
    requires 1 <= |path| == |samples| && |payload| <= MAX_PAYLOAD && Keyed(path) && Addressable(path)
    requires w.derive(seed, KeysOf(path)).Some?
  {
    var secrets, records := w.derive(seed, KeysOf(path)).value, RecordsOf(path, samples);
    Parcel(KeysOf(path), HeadersOf(w, seed, secrets, records, |path| + 1), secrets.subs, records, Padded(payload))
  }

  lemma RecordsLeadOn(path: seq<Descriptor>, samples: seq<nat>, i: nat)
    requires Keyed(path) && Addressable(path) && i < |path| == |samples|
    ensures var r := RecordsOf(path, samples)[i];
            && r.delayMicros == SenderDelay(samples[i]) && r.lastHop == (i == |path| - 1)
            && (i < |path| - 1 ==> r.nextNode == KeysOf(path)[i + 1] && r.viaRendezvous == path[i + 1].rendezvous)
            && (i < |path| - 1 && !path[i + 1].rendezvous ==>
                Some(r.nextIp) == path[i + 1].ip && Some(r.nextPort) == path[i + 1].port)
            && (i == |path| - 1 || path[i + 1].rendezvous ==> r.nextIp == 0 && r.nextPort == 0)
            && (i == |path| - 1 ==> r.nextNode == Zeros(32) && !r.viaRendezvous)
  {
  }

  /** What the sender ships is well wrapped. */
  lemma ShippedIsWellWrapped(
    x: Sphinx, w: Wrapping, seed: nat, path: seq<Descriptor>, samples: seq<nat>, payload: Bytes)
    requires LawfulSphinx(x) && LawfulWrapping(x, w)
    requires 1 <= |path| == |samples| && |payload| <= MAX_PAYLOAD && Shippable(w, seed, path, samples)
    ensures var p, shipment := ParcelOf(w, seed, path, samples, payload), Ship(x, w, seed, path, samples, payload);
            && WellWrapped(x, p) && shipment.Shipped? && path[0].socket == Some(shipment.socket)
            && shipment.node == p.keys[0] && shipment.packet == PacketAt(x, p, 0)
  {
    ShipsExactly(x, w, seed, path, samples, payload);
    var p := ParcelOf(w, seed, path, samples, payload);
    var secrets, records := w.derive(seed, KeysOf(path)).value, RecordsOf(path, samples);
    assert DerivedFor(x, KeysOf(path), secrets);
    assert Unwraps(x, w, seed, secrets, records);
    forall i | 0 <= i < |p.keys| ensures Peels(x, p, i) {
      assert UnwrapsAt(x, w, seed, secrets, records, i);
      RecordsLeadOn(path, samples, i);
    }
    assert p.subs[0..] == p.subs;
  }

  // ------------------------------------------------------------------ readiness

  /** When the relay of hop `k` is asked about the packet at the hops from `i` on and before `k`. */
  function Visits(keys: seq<NodeId>, clocks: seq<Clock>, i: nat, k: nat): seq<nat>
    requires i <= k < |keys| <= |clocks|
    decreases k - i
  {
    if i == k then []
    else (if keys[i] == keys[k] then [clocks[i].checkedAt] else []) + Visits(keys, clocks, i + 1, k)
  }

  /** A relay that holds `key`, accepts the header, lacks its γ, and after checks at `times` admits one at `now`. */
  ghost predicate Hosts(x: Sphinx, c: RelayConfig, st: RelayState, key: NodeId, header: Header, times: seq<nat>,
                        now: nat) {
    && x.publicKey(c.sk) == key && AcceptsVersion(x, c, header) && !HasKey(st.queue, header.gamma)
    && Check(AfterChecks(st.limiter, times), now).decision == Allow
  }

  /**
   Hop `k`, looked at from hop `i`: its cache lacks its γ, and its limiter, after the earlier
   visits of the packet to the same relay, lets the packet in.
   */
  ghost predicate Hospitable(x: Sphinx, net: Network, p: Parcel, i: nat, k: nat, clocks: seq<Clock>)
    requires i <= k < |p.keys| <= |clocks| && k < |p.headers|
  {
    var key := p.keys[k];
    && key in net.configs && key in net.states
    && Hosts(x, net.configs[key], net.states[key], key, p.headers[k],
             Visits(p.keys, clocks, i, k), clocks[k].checkedAt)
  }

  /** A relay that is visited twice sees two γ values. */
  ghost predicate DistinctGammas(p: Parcel)
    requires |p.keys| <= |p.headers|
  {
    forall j, k :: 0 <= j < k < |p.keys| && p.keys[j] == p.keys[k] ==> p.headers[j].gamma != p.headers[k].gamma
  }

  lemma SuffixLacks(q: seq<Entry>, n: nat, key: Key)
    requires n <= |q| && !HasKey(q, key)
    ensures !HasKey(q[n..], key)
  {
    forall i | 0 <= i < |q[n..]| ensures q[n..][i].key != key {
      assert q[n..][i] == q[n + i];
    }
  }

  lemma AbsentIsFresh(q: seq<Entry>, key: Key, now: nat, ttl: nat, maxSize: nat)
    requires !HasKey(q, key)
    ensures CheckAndInsert(q, key, now, ttl, maxSize).check == Fresh
  {
    SuffixLacks(q, |q| - |Sweep(q, now, ttl)|, key);
  }

  lemma AppendLacks(q: seq<Entry>, e: Entry, key: Key)
    requires !HasKey(q, key) && e.key != key
    ensures !HasKey(q + [e], key)
  {
    forall i | 0 <= i < |q + [e]| ensures (q + [e])[i].key != key {
      if i < |q| {
        assert (q + [e])[i] == q[i];
      }
    }
  }

  /** A check adds no key but its own. */
  lemma AddsOnlyItself(q: seq<Entry>, key: Key, now: nat, ttl: nat, maxSize: nat, other: Key)
    requires !HasKey(q, other) && key != other
    ensures !HasKey(CheckAndInsert(q, key, now, ttl, maxSize).queue, other)
  {
    var live := Sweep(q, now, ttl);
    SuffixLacks(q, |q| - |live|, other);
    if live != [] {
      SuffixLacks(live, 1, other);
    }
    AppendLacks(Evict(live, maxSize), Entry(key, now), other);
  }

  lemma HospitableWelcomes(x: Sphinx, net: Network, p: Parcel, i: nat, clocks: seq<Clock>)
    requires i < |p.keys| <= |clocks| && i < |p.headers| && Hospitable(x, net, p, i, i, clocks)
    ensures Welcomes(x, net, p, i, clocks[i])
  {
    var c, st := net.configs[p.keys[i]], net.states[p.keys[i]];
    AbsentIsFresh(st.queue, p.headers[i].gamma, clocks[i].seenAt, c.ttl, c.maxSize);
  }

  lemma AfterFirst(l: Limiter, time: nat, times: seq<nat>)
    ensures AfterChecks(l, [time] + times) == AfterChecks(Check(l, time).next, times)
  {
    assert ([time] + times)[1..] == times;
  }

  /** A visit with one γ leaves a relay hospitable to a later visit with another. */
  lemma StillHosts(x: Sphinx, c: RelayConfig, st: RelayState, key: NodeId, header: Header, times: seq<nat>, now: nat,
                   first: Header, clock: Clock)
    requires Hosts(x, c, st, key, header, [clock.checkedAt] + times, now) && first.gamma != header.gamma
    ensures Hosts(x, c, Visited(x, st, c, first, clock), key, header, times, now)
  {
    AfterFirst(st.limiter, clock.checkedAt, times);
    AddsOnlyItself(st.queue, first.gamma, clock.seenAt, c.ttl, c.maxSize, header.gamma);
  }

  lemma SameRelayStays(x: Sphinx, net: Network, p: Parcel, i: nat, k: nat, clocks: seq<Clock>, visited: RelayState,
                       next: Network)
    requires i < k < |p.keys| < |p.headers| && |p.keys| <= |clocks| && Hospitable(x, net, p, i, k, clocks)
    requires p.keys[i] == p.keys[k] && p.headers[i].gamma != p.headers[k].gamma
    requires visited == Visited(x, net.states[p.keys[i]], net.configs[p.keys[i]], p.headers[i], clocks[i])
    requires next == Put(net, p.keys[i], visited)
    ensures Hospitable(x, next, p, i + 1, k, clocks)
  {
    var key, later := p.keys[k], Visits(p.keys, clocks, i + 1, k);
    assert Visits(p.keys, clocks, i, k) == [clocks[i].checkedAt] + later;
    StillHosts(x, net.configs[key], net.states[key], key, p.headers[k], later, clocks[k].checkedAt,
               p.headers[i], clocks[i]);
  }

  lemma OtherRelayStays(x: Sphinx, net: Network, p: Parcel, i: nat, k: nat, clocks: seq<Clock>, visited: RelayState)
    requires i < k < |p.keys| < |p.headers| && |p.keys| <= |clocks| && Hospitable(x, net, p, i, k, clocks)
    requires p.keys[i] != p.keys[k]
    ensures Hospitable(x, Put(net, p.keys[i], visited), p, i + 1, k, clocks)
  {
    var later := Visits(p.keys, clocks, i + 1, k);
    assert Visits(p.keys, clocks, i, k) == [] + later == later;
  }

  lemma StaysHospitable(x: Sphinx, net: Network, p: Parcel, i: nat, k: nat, clocks: seq<Clock>, visited: RelayState,
                        next: Network)
    requires i < k < |p.keys| < |p.headers| && |p.keys| <= |clocks| && DistinctGammas(p)
    requires Hospitable(x, net, p, i, k, clocks) && p.keys[i] in net.configs && p.keys[i] in net.states
    requires visited == Visited(x, net.states[p.keys[i]], net.configs[p.keys[i]], p.headers[i], clocks[i])
    requires next == Put(net, p.keys[i], visited)
    ensures Hospitable(x, next, p, i + 1, k, clocks)
  {
    if p.keys[i] == p.keys[k] {
      SameRelayStays(x, net, p, i, k, clocks, visited, next);
    } else {
      OtherRelayStays(x, net, p, i, k, clocks, visited);
    }
  }

  ghost predicate AllHospitable(x: Sphinx, net: Network, p: Parcel, i: nat, clocks: seq<Clock>)
    requires |p.keys| <= |clocks| && |p.keys| <= |p.headers|
  {
    forall k :: i <= k < |p.keys| ==> Hospitable(x, net, p, i, k, clocks)
  }

  lemma FirstHospitable(x: Sphinx, net: Network, p: Parcel, i: nat, clocks: seq<Clock>)
    requires i < |p.keys| < |p.headers| && |p.keys| <= |clocks| && AllHospitable(x, net, p, i, clocks)
    ensures WelcomesAt(x, net, p, i, clocks[i])
  {
    assert Hospitable(x, net, p, i, i, clocks);
    HospitableWelcomes(x, net, p, i, clocks);
  }

  lemma NextHospitable(x: Sphinx, net: Network, p: Parcel, i: nat, clocks: seq<Clock>, next: Network)
    requires i < |p.keys| < |p.headers| && |p.keys| <= |clocks| && DistinctGammas(p)
    requires AllHospitable(x, net, p, i, clocks) && next == HandledAt(x, net, p, i, clocks[i])
    ensures AllHospitable(x, next, p, i + 1, clocks)
  {
    var m := i + 1;
    assert Hospitable(x, net, p, i, i, clocks);
    var visited := Visited(x, net.states[p.keys[i]], net.configs[p.keys[i]], p.headers[i], clocks[i]);
    forall k | m <= k < |p.keys| ensures Hospitable(x, next, p, m, k, clocks) {
      StaysHospitable(x, net, p, i, k, clocks, visited, next);
    }
  }

  /**
   Relays whose caches lack the packet's γ values and whose limiters admit it, visit by visit,
   are ready for it. `clocks[k]` belongs to hop `k`.
   */
  lemma HospitableIsReady(x: Sphinx, net: Network, p: Parcel, i: nat, clocks: seq<Clock>)
    requires Whole(p) && i < |p.keys| == |clocks| && DistinctGammas(p) && AllHospitable(x, net, p, i, clocks)
    ensures Ready(x, net, p, i, clocks[i..])
  {
    var way, good := WayOf(x, p), (v: Network, k: nat) => k < |p.keys| && AllHospitable(x, v, p, k, clocks);
    forall v, k: nat | k < |clocks| ensures Carries(way, good, v, k, |clocks|, clocks[k]) {
      if good(v, k) {
        FirstHospitable(x, v, p, k, clocks);
        NextHospitable(x, v, p, k, clocks, HandledAt(x, v, p, k, clocks[k]));
      }
    }
    GoodAwaits(way, good, net, i, clocks);
  }

  // ------------------------------------------------------------- shipped packets

  /** The hops of the path welcome the packet as it comes by. */
  ghost predicate PathReady(
    x: Sphinx, w: Wrapping, seed: nat, path: seq<Descriptor>, samples: seq<nat>, payload: Bytes,
    net: Network, clocks: seq<Clock>)
    requires 1 <= |path| == |samples| == |clocks| && |payload| <= MAX_PAYLOAD
  {
    && Keyed(path) && Addressable(path) && w.derive(seed, KeysOf(path)).Some?
    && var p := ParcelOf(w, seed, path, samples, payload);
    && |p.subs| == |path| && Ready(x, net, p, 0, clocks)
  }

  /** `stops` are the stops of a packet that the sender ships and every hop on the way welcomes. */
  ghost predicate Journeys(
    x: Sphinx, w: Wrapping, seed: nat, path: seq<Descriptor>, samples: seq<nat>, payload: Bytes,
    net: Network, clocks: seq<Clock>, stops: seq<Stop>)
  {
    && LawfulSphinx(x) && LawfulWrapping(x, w)
    && 1 <= |path| == |samples| == |clocks| && |payload| <= MAX_PAYLOAD
    && Shippable(w, seed, path, samples) && PathReady(x, w, seed, path, samples, payload, net, clocks)
    && var shipment := Ship(x, w, seed, path, samples, payload);
    && shipment.Shipped? && stops == Travel(x, net, shipment.node, shipment.packet, clocks)
  }

  /** Hop `k` of the path, passing a packet of full size on to the next hop after the sender's delay. */
  ghost predicate StopsAt(path: seq<Descriptor>, samples: seq<nat>, payload: Bytes, stop: Stop, k: nat)
    requires k < |path| == |samples| && Keyed(path) && |payload| <= MAX_PAYLOAD
  {
    var delay := Min(SenderDelay(samples[k]) * 1000, MAX_HOP_DELAY);
    && stop.node == KeysOf(path)[k]
    && if k == |path| - 1 then stop.outcome == DeliverLocal(delay, Padded(payload))
       else
         && stop.outcome.Forward? && stop.outcome.delay == delay && |stop.outcome.packet| == PACKET_SIZE
         && stop.outcome.node == KeysOf(path)[k + 1] && stop.outcome.viaRendezvous == path[k + 1].rendezvous
         && if path[k + 1].rendezvous then stop.outcome.ip == 0 && stop.outcome.port == 0
            else Some(stop.outcome.ip) == path[k + 1].ip && Some(stop.outcome.port) == path[k + 1].port
  }

  lemma PlannedStop(x: Sphinx, w: Wrapping, seed: nat, path: seq<Descriptor>, samples: seq<nat>, payload: Bytes, k: nat)
    requires k < |path| == |samples| && |payload| <= MAX_PAYLOAD && Keyed(path) && Addressable(path)
    requires w.derive(seed, KeysOf(path)).Some? && WellWrapped(x, ParcelOf(w, seed, path, samples, payload))
    requires k < |path| - 1 ==> KeysOf(path)[k] != KeysOf(path)[k + 1]
    ensures var p := ParcelOf(w, seed, path, samples, payload);
            StopsAt(path, samples, payload, Stop(p.keys[k], OutcomeOf(x, p, k)), k)
  {
    var p := ParcelOf(w, seed, path, samples, payload);
    PacketSize(x, p, k + 1);
    RecordsLeadOn(path, samples, k);
  }

  /**
   A packet that the sender ships, and that every hop welcomes, visits the hops of the path in
   order, at packet size and held for the sender's delay but at most 30 seconds, and the exit
   delivers the zero-padded payload; all this exactly when no hop is followed by itself.
   Otherwise the first such hop drops it.
   */
  lemma ShipmentArrives(
    x: Sphinx, w: Wrapping, seed: nat, path: seq<Descriptor>, samples: seq<nat>, payload: Bytes,
    net: Network, clocks: seq<Clock>, stops: seq<Stop>)
    requires Journeys(x, w, seed, path, samples, payload, net, clocks, stops)
    ensures var shipment := Ship(x, w, seed, path, samples, payload);
            path[0].socket == Some(shipment.socket) && |shipment.packet| == PACKET_SIZE
    ensures var keys, last := KeysOf(path), LastStop(KeysOf(path), 0);
            && |stops| == last + 1
            && (forall k :: 0 <= k < last ==> StopsAt(path, samples, payload, stops[k], k))
            && (AdjacentDistinct(keys) <==> last == |path| - 1 && StopsAt(path, samples, payload, stops[last], last))
            && (!AdjacentDistinct(keys) <==> stops[last] == Stop(keys[last], Drop(PolicyDenied)))
  {
    var p, last := ParcelOf(w, seed, path, samples, payload), LastStop(KeysOf(path), 0);
    ShippedIsWellWrapped(x, w, seed, path, samples, payload);
    PacketSize(x, p, 0);
    Journey(x, net, p, clocks);
    ReachesExit(p.keys);
    forall k | 0 <= k < last ensures StopsAt(path, samples, payload, stops[k], k) {
      PlannedStop(x, w, seed, path, samples, payload, k);
    }
    if last == |path| - 1 {
      PlannedStop(x, w, seed, path, samples, payload, last);
    }
  }

  /** One stop at each hop of the path, in order. */
  ghost predicate VisitsAll(path: seq<Descriptor>, samples: seq<nat>, payload: Bytes, stops: seq<Stop>) {
    && 1 <= |path| == |samples| && |stops| == |path| && Keyed(path) && |payload| <= MAX_PAYLOAD
    && forall k :: 0 <= k < |path| ==> StopsAt(path, samples, payload, stops[k], k)
  }

  lemma StopsAtAll(path: seq<Descriptor>, samples: seq<nat>, payload: Bytes, stops: seq<Stop>)
    requires 1 <= |path| == |samples| && |stops| == |path| && Keyed(path) && |payload| <= MAX_PAYLOAD
    requires forall k :: 0 <= k < |path| - 1 ==> StopsAt(path, samples, payload, stops[k], k)
    requires StopsAt(path, samples, payload, stops[|path| - 1], |path| - 1)
    ensures VisitsAll(path, samples, payload, stops)
  {
  }

  lemma ShipmentVisitsAll(
    x: Sphinx, w: Wrapping, seed: nat, path: seq<Descriptor>, samples: seq<nat>, payload: Bytes,
    net: Network, clocks: seq<Clock>, stops: seq<Stop>)
    requires Journeys(x, w, seed, path, samples, payload, net, clocks, stops) && AdjacentDistinct(KeysOf(path))
    ensures VisitsAll(path, samples, payload, stops)
  {
    ShipmentArrives(x, w, seed, path, samples, payload, net, clocks, stops);
    StopsAtAll(path, samples, payload, stops);
  }

  /** A message that was sealed and framed is unsealed from its padded frame. */
  lemma PaddedFrameUnseals(x: Sphinx, s: Sealing, seed: nat, sk: Bytes, sender: NodeId, body: Bytes, framed: Bytes)
    requires LawfulSealing(x, s) && SealAndFrame(s, seed, x.publicKey(sk), sender, body) == Framed(framed)
    ensures |framed| <= MAX_PAYLOAD && HandleDelivery(s, sk, Padded(framed)) == Some((sender, body))
  {
    var envelope := s.seal(seed, x.publicKey(sk), sender, body).value;
    UnframeOfFrame(envelope, Zeros(MAX_PAYLOAD - |Frame(envelope)|));
  }

  /** The packet is delivered there, and the handler finds the message in it. */
  predicate ReceivedAt(s: Sealing, sk: Bytes, stop: Stop, sender: NodeId, body: Bytes) {
    stop.outcome.DeliverLocal? && HandleDelivery(s, sk, stop.outcome.payload) == Some((sender, body))
  }

  lemma ReceivedAtExit(
    path: seq<Descriptor>, samples: seq<nat>, framed: Bytes, stops: seq<Stop>,
    s: Sealing, sk: Bytes, sender: NodeId, body: Bytes)
    requires VisitsAll(path, samples, framed, stops) && HandleDelivery(s, sk, Padded(framed)) == Some((sender, body))
    ensures ReceivedAt(s, sk, stops[|path| - 1], sender, body)
  {
    assert StopsAt(path, samples, framed, stops[|path| - 1], |path| - 1);
  }

  lemma WelcomedMessageArrives(
    x: Sphinx, w: Wrapping, s: Sealing, seed: nat, path: seq<Descriptor>, samples: seq<nat>,
    sk: Bytes, sender: NodeId, body: Bytes, framed: Bytes, net: Network, clocks: seq<Clock>, stops: seq<Stop>)
    requires LawfulSealing(x, s) && SealAndFrame(s, seed, x.publicKey(sk), sender, body) == Framed(framed)
    requires Journeys(x, w, seed, path, samples, framed, net, clocks, stops) && AdjacentDistinct(KeysOf(path))
    ensures VisitsAll(path, samples, framed, stops) && ReceivedAt(s, sk, stops[|path| - 1], sender, body)
  {
    ShipmentVisitsAll(x, w, seed, path, samples, framed, net, clocks, stops);
    PaddedFrameUnseals(x, s, seed, sk, sender, body, framed);
    ReceivedAtExit(path, samples, framed, stops, s, sk, sender, body);
  }

  // --------------------------------------------- from the state of the network alone

  /** Before the packet sets out, every relay of the path lacks its γ values and has the limits to admit it. */
  ghost predicate PathHospitable(
    x: Sphinx, w: Wrapping, seed: nat, path: seq<Descriptor>, samples: seq<nat>, payload: Bytes,
    net: Network, clocks: seq<Clock>)
    requires 1 <= |path| == |samples| == |clocks| && |payload| <= MAX_PAYLOAD
    requires Keyed(path) && Addressable(path) && w.derive(seed, KeysOf(path)).Some?
  {
    var p := ParcelOf(w, seed, path, samples, payload);
    DistinctGammas(p) && AllHospitable(x, net, p, 0, clocks)
  }

  /** What the sender needs of the directory and of the cryptography; nothing is asked of the network yet. */
  ghost predicate Departs(
    x: Sphinx, w: Wrapping, seed: nat, path: seq<Descriptor>, samples: seq<nat>, payload: Bytes, clocks: seq<Clock>)
  {
    && LawfulSphinx(x) && LawfulWrapping(x, w)
    && 1 <= |path| == |samples| == |clocks| && |payload| <= MAX_PAYLOAD
    && Shippable(w, seed, path, samples)
  }

  lemma HospitablePathIsReady(
    x: Sphinx, w: Wrapping, seed: nat, path: seq<Descriptor>, samples: seq<nat>, payload: Bytes,
    net: Network, clocks: seq<Clock>)
    requires Departs(x, w, seed, path, samples, payload, clocks)
    requires PathHospitable(x, w, seed, path, samples, payload, net, clocks)
    ensures PathReady(x, w, seed, path, samples, payload, net, clocks)
  {
    ShippedIsWellWrapped(x, w, seed, path, samples, payload);
    HospitableIsReady(x, net, ParcelOf(w, seed, path, samples, payload), 0, clocks);
    assert clocks[0..] == clocks;
  }

  lemma ReadyJourneys(
    x: Sphinx, w: Wrapping, seed: nat, path: seq<Descriptor>, samples: seq<nat>, payload: Bytes,
    net: Network, clocks: seq<Clock>, shipment: Shipment)
    requires Departs(x, w, seed, path, samples, payload, clocks)
    requires PathHospitable(x, w, seed, path, samples, payload, net, clocks)
    requires shipment == Ship(x, w, seed, path, samples, payload)
    ensures shipment.Shipped? && path[0].socket == Some(shipment.socket)
    ensures Journeys(x, w, seed, path, samples, payload, net, clocks,
                     Travel(x, net, shipment.node, shipment.packet, clocks))
  {
    ShipsExactly(x, w, seed, path, samples, payload);
    HospitablePathIsReady(x, w, seed, path, samples, payload, net, clocks);
  }

  /** An envelope that fits is framed and shipped. */
  lemma FramedIsSent(
    x: Sphinx, w: Wrapping, s: Sealing, seed: nat, path: seq<Descriptor>, samples: seq<nat>,
    recipient: NodeId, sender: NodeId, body: Bytes, envelope: Bytes)
    requires 1 <= |path| == |samples| && s.seal(seed, recipient, sender, body) == Some(envelope) && |envelope| <= 1660
    ensures |Frame(envelope)| <= MAX_PAYLOAD
    ensures SealAndFrame(s, seed, recipient, sender, body) == Framed(Frame(envelope))
    ensures SendSealed(x, w, s, seed, path, samples, recipient, sender, body) ==
            Ship(x, w, seed, path, samples, Frame(envelope))
  {
    FramesExactly(s, seed, recipient, sender, body);
  }

  /**
   End to end: a message whose envelope has at most 1660 bytes, sent over a path without
   adjacent repeats, through relays whose caches lack its γ values and whose limiters admit
   it, is dialled to the socket of the first hop, stops at every hop of the path in order, and
   the handler at the exit hands on exactly the sender and the body, despite the padding.
   */
  lemma SealedMessageArrives(
    x: Sphinx, w: Wrapping, s: Sealing, seed: nat, path: seq<Descriptor>, samples: seq<nat>,
    sk: Bytes, sender: NodeId, body: Bytes, envelope: Bytes, net: Network, clocks: seq<Clock>, shipment: Shipment)
    requires LawfulSealing(x, s) && s.seal(seed, x.publicKey(sk), sender, body) == Some(envelope) && |envelope| <= 1660
    requires Departs(x, w, seed, path, samples, Frame(envelope), clocks) && AdjacentDistinct(KeysOf(path))
    requires PathHospitable(x, w, seed, path, samples, Frame(envelope), net, clocks)
    requires shipment == SendSealed(x, w, s, seed, path, samples, x.publicKey(sk), sender, body)
    ensures shipment.Shipped? && path[0].socket == Some(shipment.socket)
    ensures var stops := Travel(x, net, shipment.node, shipment.packet, clocks);
            VisitsAll(path, samples, Frame(envelope), stops) && ReceivedAt(s, sk, stops[|path| - 1], sender, body)
  {
    FramedIsSent(x, w, s, seed, path, samples, x.publicKey(sk), sender, body, envelope);
    ReadyJourneys(x, w, seed, path, samples, Frame(envelope), net, clocks, shipment);
    WelcomedMessageArrives(x, w, s, seed, path, samples, sk, sender, body, Frame(envelope), net, clocks,
                           Travel(x, net, shipment.node, shipment.packet, clocks));
  }

  /** No relay twice. */
  ghost predicate AllDistinct(keys: seq<NodeId>) {
    forall i, j :: 0 <= i < j < |keys| ==> keys[i] != keys[j]
  }

  lemma {:induction false} NoEarlierVisit(keys: seq<NodeId>, clocks: seq<Clock>, i: nat, k: nat)
    requires i <= k < |keys| <= |clocks| && AllDistinct(keys)
    ensures Visits(keys, clocks, i, k) == []
    decreases k - i
  {
    if i == k {
    } else {
      NoEarlierVisit(keys, clocks, i + 1, k);
    }
  }

  /** A relay that holds its key and accepts the header, with an empty cache and a limiter that admits a packet now. */
  ghost predicate FreshRelay(x: Sphinx, net: Network, key: NodeId, header: Header, clock: Clock) {
    && key in net.configs && key in net.states && x.publicKey(net.configs[key].sk) == key
    && AcceptsVersion(x, net.configs[key], header)
    && net.states[key].queue == [] && Check(net.states[key].limiter, clock.checkedAt).decision == Allow
  }

  lemma FreshIsHospitable(x: Sphinx, net: Network, p: Parcel, k: nat, clocks: seq<Clock>)
    requires k < |p.keys| <= |clocks| && k < |p.headers| && AllDistinct(p.keys)
    requires FreshRelay(x, net, p.keys[k], p.headers[k], clocks[k])
    ensures Hospitable(x, net, p, 0, k, clocks)
  {
    NoEarlierVisit(p.keys, clocks, 0, k);
  }

  /**
   End to end over fresh relays: a path of different relays that accept the headers, each with
   an empty cache and a limiter that admits the packet, delivers the message, whatever its γ
   values are.
   */
  lemma FreshRelaysDeliver(
    x: Sphinx, w: Wrapping, s: Sealing, seed: nat, path: seq<Descriptor>, samples: seq<nat>,
    sk: Bytes, sender: NodeId, body: Bytes, envelope: Bytes, net: Network, clocks: seq<Clock>, shipment: Shipment)
    requires LawfulSealing(x, s) && s.seal(seed, x.publicKey(sk), sender, body) == Some(envelope) && |envelope| <= 1660
    requires Departs(x, w, seed, path, samples, Frame(envelope), clocks) && AllDistinct(KeysOf(path))
    requires var p := ParcelOf(w, seed, path, samples, Frame(envelope));
             forall k :: 0 <= k < |path| ==> FreshRelay(x, net, p.keys[k], p.headers[k], clocks[k])
    requires shipment == SendSealed(x, w, s, seed, path, samples, x.publicKey(sk), sender, body)
    ensures shipment.Shipped? && path[0].socket == Some(shipment.socket)
    ensures var stops := Travel(x, net, shipment.node, shipment.packet, clocks);
            VisitsAll(path, samples, Frame(envelope), stops) && ReceivedAt(s, sk, stops[|path| - 1], sender, body)
  {
    var p := ParcelOf(w, seed, path, samples, Frame(envelope));
    forall k | 0 <= k < |path| ensures Hospitable(x, net, p, 0, k, clocks) {
      FreshIsHospitable(x, net, p, k, clocks);
    }
    SealedMessageArrives(x, w, s, seed, path, samples, sk, sender, body, envelope, net, clocks, shipment);
  }
}
