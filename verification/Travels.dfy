/** A packet's way from relay to relay, for any network of relays and any plan of the way. */
module Travels {
  import opened Prelude
  import opened RelayModel

  /** What the environment supplies at one hop. */
  datatype Clock = Clock(checkedAt: nat, seenAt: nat, sampled: nat)

  datatype Stop = Stop(node: NodeId, outcome: Outcome)

  /** What a relay does to a packet, and the network after that. */
  datatype Served<N> = Served(outcome: Outcome, net: N)

  /** Every relay that handles the packet, with what it does to it. */
  function Trip<N>(serve: (N, NodeId, Bytes, Clock) -> Option<Served<N>>, net: N, node: NodeId, packet: Bytes,
                   clocks: seq<Clock>): seq<Stop>
    decreases |clocks|
  {
    if clocks == [] then []
    else
      match serve(net, node, packet, clocks[0])
      case None => []
      case Some(served) =>
        [Stop(node, served.outcome)] +
        if served.outcome.Forward?
        then Trip(serve, served.net, served.outcome.node, served.outcome.packet, clocks[1..])
        else []
  }

  /** A plan: the hops with what happens there, and when a hop welcomes the packet and with what effect. */
  datatype Itinerary<!N> = Itinerary(
    node: nat -> NodeId,
    packet: nat -> Bytes,
    outcome: nat -> Outcome,
    welcomes: (N, nat, Clock) -> bool,
    handled: (N, nat, Clock) -> N)

  /** The hops from `i` on, as planned. */
  function Planned<N>(it: Itinerary<N>, i: nat, n: nat): seq<Stop>
    decreases n - i
  {
    if i >= n then []
    else [Stop(it.node(i), it.outcome(i))] + if it.outcome(i).Forward? then Planned(it, i + 1, n) else []
  }

  predicate Forwards<N>(it: Itinerary<N>, k: nat) {
    it.outcome(k).Forward?
  }

  /** The plan goes on to the first hop `m` that does not forward, or to the end. */
  lemma {:induction false} PlannedLength<N>(it: Itinerary<N>, i: nat, m: nat, n: nat)
    requires i <= m < n && (m == n - 1 || !Forwards(it, m)) && forall k: nat :: i <= k < m ==> Forwards(it, k)
    ensures |Planned(it, i, n)| == m - i + 1
    decreases m - i
  {
    if i == m {
    } else {
      assert Forwards(it, i);
      PlannedLength(it, i + 1, m, n);
    }
  }

  lemma PlannedUnfolds<N>(it: Itinerary<N>, i: nat, n: nat)
    requires i < n
    ensures Planned(it, i, n) ==
            [Stop(it.node(i), it.outcome(i))] + if Forwards(it, i) then Planned(it, i + 1, n) else []
  {
  }

  lemma {:induction false} PlannedAt<N>(it: Itinerary<N>, i: nat, n: nat, k: nat)
    requires i < n && i <= k < i + |Planned(it, i, n)|
    ensures k < n && Planned(it, i, n)[k - i] == Stop(it.node(k), it.outcome(k))
    decreases k - i
  {
    PlannedUnfolds(it, i, n);
    if i == k {
    } else {
      assert Forwards(it, i);
      var rest := Planned(it, i + 1, n);
      assert Planned(it, i, n)[k - i] == rest[k - (i + 1)];
      PlannedAt(it, i + 1, n, k);
    }
  }

  /** Every relay on the way welcomes the packet when it gets there. */
  predicate Awaits<N>(it: Itinerary<N>, net: N, i: nat, clocks: seq<Clock>)
    decreases |clocks|
  {
    clocks != [] ==>
      && it.welcomes(net, i, clocks[0])
      && (it.outcome(i).Forward? ==> Awaits(it, it.handled(net, i, clocks[0]), i + 1, clocks[1..]))
  }

  /** Hop `k` does what was planned to a packet that it welcomes. */
  predicate ServesAsPlanned<N(==)>(serve: (N, NodeId, Bytes, Clock) -> Option<Served<N>>, it: Itinerary<N>, net: N,
                                   k: nat, clock: Clock) {
    it.welcomes(net, k, clock) ==>
      serve(net, it.node(k), it.packet(k), clock) == Some(Served(it.outcome(k), it.handled(net, k, clock)))
  }

  /** Hop `k` forwards, if at all, the planned packet to the next hop. */
  predicate LeadsOn<N>(it: Itinerary<N>, k: nat, n: nat) {
    it.outcome(k).Forward? ==>
      k + 1 < n && it.outcome(k).node == it.node(k + 1) && it.outcome(k).packet == it.packet(k + 1)
  }

  /** The packet makes exactly the planned journey. */
  lemma {:induction false} TripIsPlanned<N(!new)>(
    serve: (N, NodeId, Bytes, Clock) -> Option<Served<N>>, it: Itinerary<N>, net: N, i: nat, n: nat,
    clocks: seq<Clock>)
    requires i <= n && |clocks| == n - i && Awaits(it, net, i, clocks)
    requires forall v: N, k: nat, clock :: k < n ==> ServesAsPlanned(serve, it, v, k, clock)
    requires forall k: nat :: k < n ==> LeadsOn(it, k, n)
    ensures Trip(serve, net, it.node(i), it.packet(i), clocks) == Planned(it, i, n)
    decreases n - i
  {
    if i == n {
    } else {
      assert ServesAsPlanned(serve, it, net, i, clocks[0]) && LeadsOn(it, i, n);
      if it.outcome(i).Forward? {
        TripIsPlanned(serve, it, it.handled(net, i, clocks[0]), i + 1, n, clocks[1..]);
      }
    }
  }

  /** A good network welcomes the packet at hop `k`, and stays good for the next hop. */
  predicate Carries<N>(it: Itinerary<N>, good: (N, nat) -> bool, net: N, k: nat, n: nat, clock: Clock) {
    good(net, k) ==> it.welcomes(net, k, clock) && (k + 1 < n ==> good(it.handled(net, k, clock), k + 1))
  }

  lemma {:induction false} GoodAwaits<N(!new)>(it: Itinerary<N>, good: (N, nat) -> bool, net: N, i: nat,
                                               clocks: seq<Clock>)
    requires i <= |clocks| && (i < |clocks| ==> good(net, i))
    requires forall v: N, k: nat :: k < |clocks| ==> Carries(it, good, v, k, |clocks|, clocks[k])
    ensures Awaits(it, net, i, clocks[i..])
    decreases |clocks| - i
  {
    if i == |clocks| {
    } else {
      assert Carries(it, good, net, i, |clocks|, clocks[i]);
      assert clocks[i..][0] == clocks[i] && clocks[i..][1..] == clocks[i + 1..];
      GoodAwaits(it, good, it.handled(net, i, clocks[i]), i + 1, clocks);
    }
  }
}
