/**
 The whole relay over several lives: packets go through the pipeline, the replay cache is
 saved, and a restart loads it into a new relay. Seen through its cache, each such run is a
 run of `ReplayLives`, so a γ passes twice only for the reasons given there.
 */
module RelayLives {
  import opened Prelude
  import opened Runs
  import opened ReplayQueue
  import opened ReplayRestarts
  import opened RateLimit
  import opened NoiseFraming
  import opened RelayModel
  import opened RelayRuns
  import Lives = ReplayLives
  import History = ReplayHistory

  /** A restart builds the relay anew, with a limiter of its own. */
  datatype Event =
    | Arrives(packet: Arrived, at: Moment)
    | Saves(at: Moment)
    | Restarts(at: Moment, boot: int, limiter: Limiter)

  /** The relay, with its cache and file as an observer sees them. */
  datatype Site = Site(limiter: Limiter, v2Accepted: nat, world: Lives.World)

  function Relay(s: Site): RelayState {
    RelayState(s.limiter, s.world.queue, s.v2Accepted)
  }

  /** What the packet leaves in the cache, with the acceptance noted if there was one. */
  function Noted(x: Sphinx, c: RelayConfig, s: Site, a: Arrived, at: Moment, queue: seq<Entry>): Lives.World {
    var w := s.world.(queue := queue, now := at);
    if Records(x, c, Relay(s), a) then
      w.(births := w.births[Gamma(x, c, a) := at], life := w.life + [Entry(Gamma(x, c, a), a.seenAt)])
    else w
  }

  function Arrive(x: Sphinx, c: RelayConfig, s: Site, a: Arrived, at: Moment): Site {
    var st := Process(x, c, Relay(s), a).state;
    Site(st.limiter, st.v2Accepted, Noted(x, c, s, a, at, st.queue))
  }

  ghost function Next(x: Sphinx, c: RelayConfig, s: Site, e: Event): Site {
    match e
    case Arrives(a, at) => Arrive(x, c, s, a, at)
    case Saves(at) => s.(world := Lives.Written(s.world, at, c.ttl))
    case Restarts(at, boot, limiter) => Site(limiter, 0, Lives.Restarted(s.world, at, boot, c.ttl, c.maxSize))
  }

  /** Time goes on, and the cache reads the clock of the running life. */
  ghost predicate Possible(s: Site, e: Event) {
    && s.world.now <= e.at
    && (e.Arrives? ==> e.packet.seenAt == Instant(e.at, s.world.boot))
    && (e.Restarts? ==> e.boot <= e.at)
  }

  ghost function SiteStep(x: Sphinx, c: RelayConfig): (Site, Event) -> Site {
    (s: Site, e: Event) => Next(x, c, s, e)
  }

  ghost function SiteAt(x: Sphinx, c: RelayConfig, s: Site, run: seq<Event>, k: nat): Site
    requires k <= |run|
  {
    Along(SiteStep(x, c), s, run, k)
  }

  ghost predicate PossibleAt(x: Sphinx, c: RelayConfig, s: Site, run: seq<Event>, k: nat) {
    k < |run| && Possible(SiteAt(x, c, s, run, k), run[k])
  }

  ghost predicate ValidRun(x: Sphinx, c: RelayConfig, s: Site, run: seq<Event>) {
    forall k: nat :: k < |run| ==> PossibleAt(x, c, s, run, k)
  }

  // ------------------------------------------------------- as the cache sees it

  function Seen(x: Sphinx, c: RelayConfig, s: Site, e: Event): Lives.Event {
    match e
    case Arrives(a, at) =>
      if Reaches(x, c, a, Check(s.limiter, a.checkedAt)) then Lives.Packet(Gamma(x, c, a), at) else Lives.Other(at)
    case Saves(at) => Lives.Save(at)
    case Restarts(at, boot, _) => Lives.Restart(at, boot)
  }

  /** A packet does to the cache what the cache's own check does, or nothing. */
  lemma ArriveIsSeen(x: Sphinx, c: RelayConfig, s: Site, a: Arrived, at: Moment, s': Site)
    requires a.seenAt == Instant(at, s.world.boot) && s' == Arrive(x, c, s, a, at)
    ensures s'.world == Lives.Next(s.world, Seen(x, c, s, Arrives(a, at)), c.ttl, c.maxSize)
  {
    if |a.bytes| == PACKET_SIZE {
      GateReaching(x, c, Relay(s), a, Check(s.limiter, a.checkedAt));
    }
  }

  lemma NextIsSeen(x: Sphinx, c: RelayConfig, s: Site, e: Event, s': Site)
    requires Possible(s, e) && s' == Next(x, c, s, e)
    ensures s'.world == Lives.Next(s.world, Seen(x, c, s, e), c.ttl, c.maxSize)
  {
    match e
    case Arrives(a, at) => ArriveIsSeen(x, c, s, a, at, s');
    case Saves(_) =>
    case Restarts(_, _, _) =>
  }

  ghost predicate SeenAt(x: Sphinx, c: RelayConfig, s: Site, run: seq<Event>, seen: seq<Lives.Event>, k: nat) {
    k < |run| == |seen| && seen[k] == Seen(x, c, SiteAt(x, c, s, run, k), run[k])
  }

  /** `seen` is the run as the cache sees it. */
  ghost predicate SeenAs(x: Sphinx, c: RelayConfig, s: Site, run: seq<Event>, seen: seq<Lives.Event>) {
    |seen| == |run| && forall k: nat :: k < |run| ==> SeenAt(x, c, s, run, seen, k)
  }

  lemma SeenRun(x: Sphinx, c: RelayConfig, s: Site, run: seq<Event>) returns (seen: seq<Lives.Event>)
    ensures SeenAs(x, c, s, run, seen)
  {
    seen := seq(|run|, k requires 0 <= k < |run| => Seen(x, c, SiteAt(x, c, s, run, k), run[k]));
  }

  lemma WorldsAgree(x: Sphinx, c: RelayConfig, s: Site, run: seq<Event>, seen: seq<Lives.Event>, k: nat)
    requires ValidRun(x, c, s, run) && SeenAs(x, c, s, run, seen) && k <= |run|
    ensures SiteAt(x, c, s, run, k).world == Lives.WorldAt(s.world, seen, k, c.ttl, c.maxSize)
  {
    var step, step', view := SiteStep(x, c), Lives.StepOf(c.ttl, c.maxSize), (v: Site) => v.world;
    forall m: nat | m < k ensures Mirrors(step, step', view, s, run, seen, m) {
      assert PossibleAt(x, c, s, run, m) && SeenAt(x, c, s, run, seen, m);
      var v := Along(step, s, run, m);
      NextIsSeen(x, c, v, run[m], step(v, run[m]));
    }
    MirrorsAlong(step, step', view, s, run, seen, k);
  }

  lemma SeenIsPossible(x: Sphinx, c: RelayConfig, s: Site, e: Event)
    requires Possible(s, e)
    ensures Lives.Possible(s.world, Seen(x, c, s, e))
  {
  }

  lemma SeenIsValid(x: Sphinx, c: RelayConfig, s: Site, run: seq<Event>, seen: seq<Lives.Event>)
    requires ValidRun(x, c, s, run) && SeenAs(x, c, s, run, seen)
    ensures Lives.ValidRun(s.world, seen, c.ttl, c.maxSize)
  {
    forall k: nat | k < |seen| ensures Lives.PossibleAt(s.world, seen, k, c.ttl, c.maxSize) {
      assert PossibleAt(x, c, s, run, k) && SeenAt(x, c, s, run, seen, k);
      WorldsAgree(x, c, s, run, seen, k);
      SeenIsPossible(x, c, SiteAt(x, c, s, run, k), run[k]);
    }
  }

  // ----------------------------------------------------------- once over all lives

  /** The event is a packet with γ that is forwarded or delivered. */
  ghost predicate Lets(x: Sphinx, c: RelayConfig, s: Site, e: Event, gamma: Key) {
    && e.Arrives? && Passes(Process(x, c, Relay(s), e.packet).outcome)
    && |e.packet.bytes| == PACKET_SIZE && Verify(x, c, e.packet.bytes).Authentic? && Gamma(x, c, e.packet) == gamma
  }

  ghost predicate LetsAt(x: Sphinx, c: RelayConfig, s: Site, run: seq<Event>, i: nat, gamma: Key) {
    i < |run| && Lets(x, c, SiteAt(x, c, s, run, i), run[i], gamma)
  }

  lemma LetIsAccepted(x: Sphinx, c: RelayConfig, s: Site, e: Event, gamma: Key)
    requires Possible(s, e) && Lets(x, c, s, e, gamma)
    ensures Seen(x, c, s, e) == Lives.Packet(gamma, e.at) && !Lives.Refuses(s.world, gamma, e.at, c.ttl, c.maxSize)
  {
    var checked := Check(s.limiter, e.packet.checkedAt);
    GatePassing(x, c, Relay(s), e.packet, checked);
    GateReaching(x, c, Relay(s), e.packet, checked);
  }

  lemma LetIsAcceptedAt(x: Sphinx, c: RelayConfig, s: Site, run: seq<Event>, seen: seq<Lives.Event>, i: nat, gamma: Key)
    requires ValidRun(x, c, s, run) && SeenAs(x, c, s, run, seen) && LetsAt(x, c, s, run, i, gamma)
    ensures History.AcceptsAt(s.world, seen, i, gamma, c.ttl, c.maxSize) && seen[i].at == run[i].at
  {
    assert PossibleAt(x, c, s, run, i) && SeenAt(x, c, s, run, seen, i);
    LetIsAccepted(x, c, SiteAt(x, c, s, run, i), run[i], gamma);
    WorldsAgree(x, c, s, run, seen, i);
  }

  predicate Unsaved(run: seq<Event>, i: nat, m: nat)
    requires m <= |run|
  {
    forall n :: i < n < m ==> !run[n].Saves?
  }

  /**
   Event `m` loses what event `i` recorded: a save of a cache in which others have overtaken
   it, a restart without a save since, or a restart into a cache full of entries no older.
   */
  ghost predicate Loses(c: RelayConfig, run: seq<Event>, i: nat, m: nat, w: Lives.World, gamma: Key)
    requires m < |run|
  {
    match run[m]
    case Arrives(_, _) => false
    case Saves(_) => Overtaken(w.life, gamma, Capacity(c.maxSize))
    case Restarts(at, boot, _) => Unsaved(run, i, m) || Lives.LeftOut(w, at, boot, gamma, c.ttl, c.maxSize)
  }

  ghost predicate LosesAt(x: Sphinx, c: RelayConfig, s: Site, run: seq<Event>, i: nat, m: nat, gamma: Key) {
    m < |run| && Loses(c, run, i, m, SiteAt(x, c, s, run, m).world, gamma)
  }

  lemma UnsavedIsSeen(x: Sphinx, c: RelayConfig, s: Site, run: seq<Event>, seen: seq<Lives.Event>, i: nat, m: nat)
    requires SeenAs(x, c, s, run, seen) && m <= |run| && History.Unsaved(seen, i, m)
    ensures Unsaved(run, i, m)
  {
    forall n | i < n < m ensures !run[n].Saves? {
      assert SeenAt(x, c, s, run, seen, n) && !seen[n].Save?;
    }
  }

  lemma LossIsSeen(x: Sphinx, c: RelayConfig, s: Site, run: seq<Event>, seen: seq<Lives.Event>, i: nat, m: nat,
                   gamma: Key)
    requires ValidRun(x, c, s, run) && SeenAs(x, c, s, run, seen)
    requires History.LosesAt(s.world, seen, i, m, gamma, c.ttl, c.maxSize)
    ensures LosesAt(x, c, s, run, i, m, gamma)
  {
    assert SeenAt(x, c, s, run, seen, m);
    WorldsAgree(x, c, s, run, seen, m);
    if History.Unsaved(seen, i, m) {
      UnsavedIsSeen(x, c, s, run, seen, i, m);
    }
  }

  /**
   At most once per γ over all lives: in every run of packets, saves and restarts, if two
   packets with the same γ are both forwarded or delivered, then the first was, in truth,
   within a second of its lifetime or past it, or others had overtaken it in the life of the
   second, or some event between lost it.
   */
  lemma OncePerGammaAcrossLives(x: Sphinx, c: RelayConfig, s: Site, run: seq<Event>, i: nat, j: nat, gamma: Key)
    requires Lives.Inv(s.world, c.ttl, c.maxSize) && ValidRun(x, c, s, run) && i < j
    requires LetsAt(x, c, s, run, i, gamma) && LetsAt(x, c, s, run, j, gamma)
    ensures || run[j].at - run[i].at + SECOND > c.ttl
            || Overtaken(SiteAt(x, c, s, run, j).world.life, gamma, Capacity(c.maxSize))
            || exists m :: i < m < j && LosesAt(x, c, s, run, i, m, gamma)
  {
    var seen := SeenRun(x, c, s, run);
    SeenIsValid(x, c, s, run, seen);
    LetIsAcceptedAt(x, c, s, run, seen, i, gamma);
    LetIsAcceptedAt(x, c, s, run, seen, j, gamma);
    History.AcceptedAgain(s.world, seen, i, j, gamma, c.ttl, c.maxSize);
    WorldsAgree(x, c, s, run, seen, j);
    if m :| i < m < j && History.LosesAt(s.world, seen, i, m, gamma, c.ttl, c.maxSize) {
      LossIsSeen(x, c, s, run, seen, i, m, gamma);
    }
  }
}
