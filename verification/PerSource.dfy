/**
 One rate limiter per source address, in a table of bounded size that forgets the source
 that has been silent for longest. Which of several equally silent sources goes depends on
 the iteration order of a hash map, so it is a choice of the environment here.
 */
module PerSource {
  import opened Prelude
  import opened RateLimit

  datatype Ip = V4(bits: nat) | V6(bits: nat)

  datatype Slot = Slot(limiter: Limiter, seen: nat)

  type Table = map<Ip, Slot>

  datatype Config = Config(maxPps: real, budget: u64, maxEntries: nat)

  /**
   A check of one source. `refilled` and `begun` are the clock readings of the constructor
   of a new limiter, and `victim` is the source that makes room if the table is full.
   */
  datatype Probe = Probe(src: Ip, now: nat, refilled: nat, begun: nat, victim: Ip)

  datatype Answer = Answer(decision: Decision, table: Table)

  predicate LongestIdle(t: Table, ip: Ip) {
    ip in t && forall k :: k in t ==> t[ip].seen <= t[k].seen
  }

  predicate Full(t: Table, src: Ip, c: Config) {
    src !in t && |t| >= c.maxEntries && t != map[]
  }

  predicate Legal(t: Table, p: Probe, c: Config) {
    Full(t, p.src, c) ==> LongestIdle(t, p.victim)
  }

  function Fresh(p: Probe, c: Config): Limiter {
    NewLimiter(c.maxPps, c.budget, p.refilled, p.begun)
  }

  function CheckSource(t: Table, p: Probe, c: Config): Answer {
    var roomy := if Full(t, p.src, c) then t - {p.victim} else t;
    var limiter := if p.src in t then t[p.src].limiter else Fresh(p, c);
    var checked := Check(limiter, p.now);
    Answer(checked.decision, roomy[p.src := Slot(checked.next, p.now)])
  }

  // ------------------------------------------------------------ in place

  lemma CheckKeepsBound(t: Table, p: Probe, c: Config)
    requires Legal(t, p, c) && |t| <= c.maxEntries && 1 <= c.maxEntries
    ensures |CheckSource(t, p, c).table| <= c.maxEntries
  {
    var t' := CheckSource(t, p, c).table;
    var roomy := if Full(t, p.src, c) then t - {p.victim} else t;
    assert |t| == |t.Keys| && |roomy| == |roomy.Keys| && |t'| == |t'.Keys|;
    assert Full(t, p.src, c) ==> roomy.Keys == t.Keys - {p.victim};
    assert t'.Keys == roomy.Keys + {p.src};
  }

  lemma RemoveSize(t: Table, ip: Ip)
    requires ip in t
    ensures |t - {ip}| == |t| - 1
  {
    assert |t| == |t.Keys| && |t - {ip}| == |(t - {ip}).Keys|;
    assert (t - {ip}).Keys == t.Keys - {ip};
  }

  lemma InsertSize(t: Table, ip: Ip, slot: Slot)
    requires ip !in t
    ensures |t[ip := slot]| == |t| + 1
  {
    assert |t| == |t.Keys| && |t[ip := slot]| == |t[ip := slot].Keys|;
    assert t[ip := slot].Keys == t.Keys + {ip};
  }

  lemma UpdateSize(t: Table, ip: Ip, slot: Slot)
    requires ip in t
    ensures |t[ip := slot]| == |t|
  {
    assert |t| == |t.Keys| && |t[ip := slot]| == |t[ip := slot].Keys|;
    assert t[ip := slot].Keys == t.Keys;
  }

  lemma TwoUpdates(t: Table, ip: Ip, a: Slot, b: Slot)
    ensures t[ip := a][ip := b] == t[ip := b]
  {
  }

  /** The table once there is room for the source, and the source has its place in it. */
  function Entered(t: Table, p: Probe, c: Config): Table {
    if p.src in t then t
    else (if Full(t, p.src, c) then t - {p.victim} else t)[p.src := Slot(Fresh(p, c), p.now)]
  }

  /** A check is an entry, if need be, and a check of the source's own limiter. */
  lemma EnterThenAsk(t: Table, p: Probe, c: Config, checked: Checked)
    requires checked == Check(Entered(t, p, c)[p.src].limiter, p.now)
    ensures CheckSource(t, p, c) == Answer(checked.decision, Entered(t, p, c)[p.src := Slot(checked.next, p.now)])
  {
    assert p.src !in t ==>
      Entered(t, p, c)[p.src := Slot(checked.next, p.now)] ==
      (if Full(t, p.src, c) then t - {p.victim} else t)[p.src := Slot(checked.next, p.now)];
  }

  /** A limiter that is updated in place, and when its source was last seen. */
  datatype Bucket = Bucket(limiter: RateLimiter, seen: nat)

  /** The table as it runs: each source has a limiter object of its own. `table` is what it amounts to. */
  class PerSourceLimiter {
    var buckets: map<Ip, Bucket>
    const config: Config
    ghost var table: Table
    ghost var owner: map<RateLimiter, Ip>

    ghost predicate Shows(ip: Ip)
      requires ip in buckets && ip in table
      reads this, buckets[ip].limiter
    {
      table[ip] == Slot(buckets[ip].limiter.View(), buckets[ip].seen)
    }

    /** No two sources share a limiter, since each limiter has one owner. */
    ghost predicate Valid()
      reads this, owner.Keys
    {
      && table.Keys == buckets.Keys && |table| <= config.maxEntries && 1 <= config.maxEntries
      && forall ip :: ip in buckets ==>
           buckets[ip].limiter in owner && owner[buckets[ip].limiter] == ip && Shows(ip)
    }

    constructor (maxPps: real, budget: u64, maxEntries: nat)
      ensures Valid() && table == map[] && owner == map[] && config == Config(maxPps, budget, Max(maxEntries, 1))
    {
      buckets, table, owner := map[], map[], map[];
      config := Config(maxPps, budget, Max(maxEntries, 1));
    }

    /** `min_by_key` over the table. */
    method FindLongestIdle() returns (victim: Ip)
      requires Valid() && buckets != map[]
      ensures LongestIdle(table, victim)
    {
      victim :| victim in buckets;
      var rest := buckets.Keys;
      while rest != {}
        invariant rest <= buckets.Keys && victim in buckets
        invariant forall k :: k in buckets && k !in rest ==> buckets[victim].seen <= buckets[k].seen
        decreases |rest|
      {
        var k :| k in rest;
        if buckets[k].seen < buckets[victim].seen {
          victim := k;
        }
        rest := rest - {k};
      }
      assert forall k :: k in table ==> Shows(k);
    }

    /** Drops a source. */
    method Remove(victim: Ip)
      requires Valid() && victim in buckets
      modifies this
      ensures Valid() && owner == old(owner) && table == old(table) - {victim} && |table| < config.maxEntries
    {
      RemoveSize(table, victim);
      buckets := buckets - {victim};
      table := table - {victim};
    }

    /** Puts a source with a limiter that no other has into the table. */
    method Insert(src: Ip, own: RateLimiter, now: nat)
      requires Valid() && src !in buckets && |table| < config.maxEntries && own !in owner
      modifies this
      ensures Valid() && owner == old(owner)[own := src] && table == old(table)[src := Slot(own.View(), now)]
    {
      InsertSize(table, src, Slot(own.View(), now));
      table := table[src := Slot(own.View(), now)];
      buckets := buckets[src := Bucket(own, now)];
      owner := owner[own := src];
      forall ip | ip in buckets ensures buckets[ip].limiter in owner && owner[buckets[ip].limiter] == ip && Shows(ip) {
        if ip != src {
          assert old(Shows(ip));
        }
      }
    }

    /** Gives a new source a limiter of its own. */
    method Enter(src: Ip, now: nat, refilled: nat, begun: nat) returns (ghost limiter: RateLimiter)
      requires Valid() && src !in buckets && |table| < config.maxEntries
      modifies this
      ensures Valid() && src in table && fresh(limiter) && owner == old(owner)[limiter := src]
      ensures table == old(table)[src := Slot(NewLimiter(config.maxPps, config.budget, refilled, begun), now)]
    {
      var own := new RateLimiter(config.maxPps, config.budget, refilled, begun);
      limiter := own;
      Insert(src, own, now);
    }

    /** Drops a longest-idle source if the table is full. */
    method MakeRoom(src: Ip) returns (ghost victim: Ip)
      requires Valid() && src !in buckets
      modifies this
      ensures Valid() && owner == old(owner) && src !in buckets && |table| < config.maxEntries
      ensures |old(table)| == config.maxEntries ==> LongestIdle(old(table), victim) && table == old(table) - {victim}
      ensures |old(table)| < config.maxEntries ==> table == old(table)
    {
      victim := src;
      assert |buckets| == |buckets.Keys| && |table| == |table.Keys|;
      if |buckets| >= config.maxEntries {
        var chosen := FindLongestIdle();
        victim := chosen;
        Remove(chosen);
      }
    }

    /** Room for the source, and a place in the table. */
    method Admit(src: Ip, now: nat, refilled: nat, begun: nat) returns (ghost p: Probe)
      requires Valid()
      modifies this
      ensures Valid() && src in table && fresh(owner.Keys - old(owner.Keys))
      ensures p.src == src && p.now == now && p.refilled == refilled && p.begun == begun
      ensures Legal(old(table), p, config) && table == Entered(old(table), p, config)
    {
      ghost var victim := src;
      if src !in buckets {
        victim := MakeRoom(src);
        ghost var limiter := Enter(src, now, refilled, begun);
        assert owner.Keys - old(owner.Keys) <= {limiter};
      }
      p := Probe(src, now, refilled, begun, victim);
    }

    /** Notes when the source was last seen. */
    method Stamp(src: Ip, now: nat)
      requires Valid() && src in buckets
      modifies this
      ensures Valid() && owner == old(owner) && src in buckets && buckets[src].limiter == old(buckets)[src].limiter
      ensures table == old(table)[src := Slot(old(table)[src].limiter, now)]
    {
      assert Shows(src);
      ghost var slot := Slot(table[src].limiter, now);
      UpdateSize(table, src, slot);
      table := table[src := slot];
      buckets := buckets[src := Bucket(buckets[src].limiter, now)];
    }

    /** Asks the source's limiter, which changes no other limiter. */
    method Consult(src: Ip, now: nat) returns (decision: Decision)
      requires Valid() && src in buckets
      modifies `table, buckets[src].limiter
      ensures Valid() && src in table
      ensures Checked(decision, table[src].limiter) == Check(old(table)[src].limiter, now)
      ensures table == old(table)[src := Slot(table[src].limiter, old(table)[src].seen)]
    {
      var limiter := buckets[src].limiter;
      assert Shows(src);
      assert forall ip :: ip in buckets && ip != src ==> buckets[ip].limiter != limiter;
      decision := limiter.CheckAt(now);
      ghost var slot := Slot(limiter.View(), table[src].seen);
      UpdateSize(table, src, slot);
      table := table[src := slot];
      forall ip | ip in buckets ensures buckets[ip].limiter in owner && owner[buckets[ip].limiter] == ip && Shows(ip) {
        if ip != src {
          assert old(Shows(ip));
        }
      }
    }

    method Ask(src: Ip, now: nat) returns (decision: Decision)
      requires Valid() && src in buckets
      modifies this, buckets[src].limiter
      ensures Valid() && owner == old(owner) && src in table
      ensures Checked(decision, table[src].limiter) == Check(old(table)[src].limiter, now)
      ensures table == old(table)[src := Slot(table[src].limiter, now)]
    {
      Stamp(src, now);
      decision := Consult(src, now);
      TwoUpdates(old(table), src, Slot(old(table)[src].limiter, now), table[src]);
    }

    /** Checks one packet of `src`; `p` records the choice of the victim, if there was one. */
    method CheckAt(src: Ip, now: nat, refilled: nat, begun: nat) returns (decision: Decision, ghost p: Probe)
      requires Valid()
      modifies this, owner.Keys
      ensures Valid() && fresh(owner.Keys - old(owner.Keys))
      ensures p.src == src && p.now == now && p.refilled == refilled && p.begun == begun
      ensures Legal(old(table), p, config)
      ensures Answer(decision, table) == CheckSource(old(table), p, config)
    {
      ghost var was := table;
      p := Admit(src, now, refilled, begun);
      ghost var entered := table;
      decision := Ask(src, now);
      EnterThenAsk(was, p, config, Checked(decision, table[src].limiter));
    }
  }

  // ------------------------------------------------------------------- runs

  ghost predicate LegalRun(t: Table, run: seq<Probe>, c: Config)
    decreases |run|
  {
    run != [] ==> Legal(t, run[0], c) && LegalRun(CheckSource(t, run[0], c).table, run[1..], c)
  }

  ghost function AfterRun(t: Table, run: seq<Probe>, c: Config): Table
    decreases |run|
  {
    if run == [] then t else AfterRun(CheckSource(t, run[0], c).table, run[1..], c)
  }

  /** The table never outgrows its bound, in any run. */
  lemma {:induction false} TableIsBounded(t: Table, run: seq<Probe>, c: Config)
    requires LegalRun(t, run, c) && |t| <= c.maxEntries && 1 <= c.maxEntries
    ensures |AfterRun(t, run, c)| <= c.maxEntries
    decreases |run|
  {
    if run == [] {
    } else {
      CheckKeepsBound(t, run[0], c);
      TableIsBounded(CheckSource(t, run[0], c).table, run[1..], c);
    }
  }

  // ------------------------------------------------------- when a source is forgotten

  /**
   A check makes a source leave only if the table is as large as it may get and the checked
   source is new; then one source leaves, and none has been silent for longer.
   */
  lemma LeavesOnlyWhenFull(t: Table, p: Probe, c: Config, ip: Ip)
    requires Legal(t, p, c) && |t| <= c.maxEntries && ip in t && ip !in CheckSource(t, p, c).table
    ensures |t| == c.maxEntries && p.src !in t && forall k :: k in t ==> t[ip].seen <= t[k].seen
    ensures CheckSource(t, p, c).table.Keys == t.Keys - {ip} + {p.src}
  {
  }

  ghost function Sources(run: seq<Probe>): set<Ip> {
    set i | 0 <= i < |run| :: run[i].src
  }

  lemma SourcesOfRest(run: seq<Probe>)
    requires run != []
    ensures Sources(run) == Sources(run[1..]) + {run[0].src}
  {
    forall ip | ip in Sources(run) ensures ip in Sources(run[1..]) + {run[0].src} {
      var i :| 0 <= i < |run| && run[i].src == ip;
      if i > 0 {
        assert run[1..][i - 1].src == ip;
      }
    }
    forall ip | ip in Sources(run[1..]) ensures ip in Sources(run) {
      var i :| 0 <= i < |run[1..]| && run[1..][i].src == ip;
      assert run[i + 1].src == ip;
    }
  }

  lemma ProperSubset(a: set<Ip>, b: set<Ip>)
    requires a < b
    ensures |a| < |b|
  {
    assert b == (b - a) + a && |b| == |b - a| + |a|;
    assert b - a != {};
  }

  /** With no more than `maxEntries` sources in all, a check only adds its source. */
  lemma RoomForAll(t: Table, p: Probe, c: Config, all: set<Ip>)
    requires t.Keys <= all && p.src in all && |all| <= c.maxEntries
    ensures CheckSource(t, p, c).table.Keys == t.Keys + {p.src}
    ensures forall ip :: ip in t && ip != p.src ==> CheckSource(t, p, c).table[ip] == t[ip]
  {
    assert |t| == |t.Keys|;
    if p.src !in t {
      ProperSubset(t.Keys, all);
    }
  }

  /** The checks of one source, in order. */
  function Own(run: seq<Probe>, src: Ip): seq<Probe>
    decreases |run|
  {
    if run == [] then [] else (if run[0].src == src then [run[0]] else []) + Own(run[1..], src)
  }

  function Times(run: seq<Probe>): (times: seq<nat>)
    ensures |times| == |run|
  {
    seq(|run|, i requires 0 <= i < |run| => run[i].now)
  }

  /** What the checks of one source are answered. */
  ghost function Answers(t: Table, run: seq<Probe>, src: Ip, c: Config): seq<Decision>
    decreases |run|
  {
    if run == [] then []
    else
      var a := CheckSource(t, run[0], c);
      (if run[0].src == src then [a.decision] else []) + Answers(a.table, run[1..], src, c)
  }

  ghost function Admissions(t: Table, run: seq<Probe>, src: Ip, c: Config): nat
    decreases |run|
  {
    if run == [] then 0
    else
      (if run[0].src == src && src !in t then 1 else 0)
      + Admissions(CheckSource(t, run[0], c).table, run[1..], src, c)
  }

  /** The limiter that a source starts from: the one in the table, or one born with its first check. */
  function LimiterOf(t: Table, own: seq<Probe>, src: Ip, c: Config): Limiter
    requires own != [] || src in t
  {
    if src in t then t[src].limiter else Fresh(own[0], c)
  }

  lemma {:induction false} OwnIsFound(run: seq<Probe>, src: Ip)
    requires src in Sources(run)
    ensures Own(run, src) != []
    decreases |run|
  {
    if run[0].src != src {
      SourcesOfRest(run);
      OwnIsFound(run[1..], src);
    }
  }

  lemma DecisionsFirst(l: Limiter, p: Probe, rest: seq<Probe>)
    ensures Decisions(l, Times([p] + rest)) == [Check(l, p.now).decision] + Decisions(Check(l, p.now).next, Times(rest))
  {
    assert Times([p] + rest)[1..] == Times(rest);
  }

  lemma OwnChecked(t: Table, p: Probe, rest: seq<Probe>, src: Ip, c: Config, a: Answer)
    requires p.src == src && a == CheckSource(t, p, c)
    ensures var l := LimiterOf(t, [p] + rest, src, c);
            && src in a.table && a.decision == Check(l, p.now).decision && a.table[src].limiter == Check(l, p.now).next
  {
  }

  lemma {:induction false} AloneWithin(t: Table, run: seq<Probe>, src: Ip, c: Config, all: set<Ip>)
    requires t.Keys <= all && Sources(run) <= all && |all| <= c.maxEntries && (src in t || Own(run, src) != [])
    ensures Answers(t, run, src, c) == Decisions(LimiterOf(t, Own(run, src), src, c), Times(Own(run, src)))
    decreases |run|
  {
    if run == [] {
    } else {
      var p, rest, a := run[0], Own(run[1..], src), CheckSource(t, run[0], c);
      SourcesOfRest(run);
      RoomForAll(t, p, c, all);
      AloneWithin(a.table, run[1..], src, c, all);
      if p.src == src {
        OwnChecked(t, p, rest, src, c, a);
        DecisionsFirst(LimiterOf(t, [p] + rest, src, c), p, rest);
      } else {
        assert Own(run, src) == [] + rest == rest;
      }
    }
  }

  lemma {:induction false} StaysWithin(t: Table, run: seq<Probe>, src: Ip, c: Config, all: set<Ip>)
    requires t.Keys <= all && Sources(run) <= all && |all| <= c.maxEntries
    ensures AfterRun(t, run, c).Keys == t.Keys + Sources(run)
    ensures Admissions(t, run, src, c) == if src !in t && src in Sources(run) then 1 else 0
    decreases |run|
  {
    if run == [] {
    } else {
      SourcesOfRest(run);
      RoomForAll(t, run[0], c, all);
      StaysWithin(CheckSource(t, run[0], c).table, run[1..], src, c, all);
    }
  }

  /**
   A table with room for all: in every run of at most `maxEntries` sources none is ever
   forgotten, each is admitted once, and each is answered like a lone limiter that is born
   with its first check and given only its own checks.
   */
  lemma FewSourcesAreNeverForgotten(run: seq<Probe>, src: Ip, c: Config)
    requires |Sources(run)| <= c.maxEntries && src in Sources(run)
    ensures AfterRun(map[], run, c).Keys == Sources(run) && Admissions(map[], run, src, c) == 1
    ensures var own := Own(run, src);
            own != [] && Answers(map[], run, src, c) == Decisions(Fresh(own[0], c), Times(own))
  {
    OwnIsFound(run, src);
    StaysWithin(map[], run, src, c, Sources(run));
    AloneWithin(map[], run, src, c, Sources(run));
  }

  // -------------------------------------------------------------- isolation

  /** A limiter of its own: how it was created when the source last entered the table, and its checks since. */
  datatype Solo = Solo(born: Limiter, times: seq<nat>)

  /** What an observer notes of each tracked source, without ever looking at a limiter's state. */
  ghost function Note(h: map<Ip, Solo>, t: Table, p: Probe, c: Config): map<Ip, Solo>
    requires h.Keys == t.Keys
  {
    var roomy := if Full(t, p.src, c) then h - {p.victim} else h;
    roomy[p.src := if p.src in h then Solo(h[p.src].born, h[p.src].times + [p.now]) else Solo(Fresh(p, c), [p.now])]
  }

  ghost predicate Matches(h: map<Ip, Solo>, t: Table) {
    && h.Keys == t.Keys
    && forall ip :: ip in t ==>
         && h[ip].times != []
         && t[ip] == Slot(AfterChecks(h[ip].born, h[ip].times), h[ip].times[|h[ip].times| - 1])
  }

  lemma {:induction false} AppendCheck(l: Limiter, times: seq<nat>, now: nat)
    ensures AfterChecks(l, times + [now]) == Check(AfterChecks(l, times), now).next
    ensures Decisions(l, times + [now]) == Decisions(l, times) + [Check(AfterChecks(l, times), now).decision]
    decreases |times|
  {
    if times == [] {
      assert [] + [now] == [now] && [now][1..] == [];
    } else {
      AppendCheck(Check(l, times[0]).next, times[1..], now);
      assert (times + [now])[1..] == times[1..] + [now];
    }
  }

  /** The notes on a source before a check: those of the tracked one, or a limiter born now. */
  ghost function Noted(h: map<Ip, Solo>, p: Probe, c: Config): Solo {
    if p.src in h then h[p.src] else Solo(Fresh(p, c), [])
  }

  lemma NoteOwn(h: map<Ip, Solo>, t: Table, p: Probe, c: Config)
    requires h.Keys == t.Keys
    ensures Note(h, t, p, c)[p.src] == Solo(Noted(h, p, c).born, Noted(h, p, c).times + [p.now])
  {
    assert [] + [p.now] == [p.now];
  }

  lemma NoteKeys(h: map<Ip, Solo>, t: Table, p: Probe, c: Config)
    requires h.Keys == t.Keys && Legal(t, p, c)
    ensures Note(h, t, p, c).Keys == CheckSource(t, p, c).table.Keys
  {
  }

  lemma CheckOwn(h: map<Ip, Solo>, t: Table, p: Probe, c: Config)
    requires Matches(h, t) && Legal(t, p, c)
    ensures var a, own := CheckSource(t, p, c), Check(AfterChecks(Noted(h, p, c).born, Noted(h, p, c).times), p.now);
            a.decision == own.decision && p.src in a.table && a.table[p.src] == Slot(own.next, p.now)
  {
  }

  lemma OthersMatch(h: map<Ip, Solo>, t: Table, p: Probe, c: Config, ip: Ip)
    requires Matches(h, t) && Legal(t, p, c) && ip in CheckSource(t, p, c).table && ip != p.src
    ensures ip in h && ip in Note(h, t, p, c) && Note(h, t, p, c)[ip] == h[ip]
    ensures CheckSource(t, p, c).table[ip] == t[ip]
  {
  }

  /** One check: the answer is that of the source's own limiter, and only its notes change. */
  lemma CheckIsSolo(h: map<Ip, Solo>, t: Table, p: Probe, c: Config)
    requires Matches(h, t) && Legal(t, p, c)
    ensures var h', a := Note(h, t, p, c), CheckSource(t, p, c);
            && Matches(h', a.table)
            && var own := h'[p.src]; a.decision == Decisions(own.born, own.times)[|own.times| - 1]
  {
    NoteOwn(h, t, p, c);
    NoteKeys(h, t, p, c);
    CheckOwn(h, t, p, c);
    AppendCheck(Noted(h, p, c).born, Noted(h, p, c).times, p.now);
    forall ip | ip in CheckSource(t, p, c).table && ip != p.src
      ensures ip in h && Note(h, t, p, c)[ip] == h[ip] && CheckSource(t, p, c).table[ip] == t[ip]
    {
      OthersMatch(h, t, p, c, ip);
    }
  }

  /** Every decision of a run, next to the one that a limiter of the source's own would have made. */
  ghost predicate EachIsSolo(h: map<Ip, Solo>, t: Table, run: seq<Probe>, c: Config)
    requires h.Keys == t.Keys
    decreases |run|
  {
    run != [] ==>
      var h', a := Note(h, t, run[0], c), CheckSource(t, run[0], c);
      && h'.Keys == a.table.Keys
      && a.decision == Decisions(h'[run[0].src].born, h'[run[0].src].times)[|h'[run[0].src].times| - 1]
      && EachIsSolo(h', a.table, run[1..], c)
  }

  /**
   Isolation: in every interleaving of sources, each decision is that of a lone limiter
   created at the latest admission of the source to the table and given only its own checks.
   */
  lemma {:induction false} SourcesAreIsolated(h: map<Ip, Solo>, t: Table, run: seq<Probe>, c: Config)
    requires Matches(h, t) && LegalRun(t, run, c)
    ensures EachIsSolo(h, t, run, c)
    decreases |run|
  {
    if run == [] {
    } else {
      CheckIsSolo(h, t, run[0], c);
      SourcesAreIsolated(Note(h, t, run[0], c), CheckSource(t, run[0], c).table, run[1..], c);
    }
  }

  // ---------------------------------------------------------- bound on a source

  ghost function Passed(t: Table, run: seq<Probe>, src: Ip, c: Config): nat
    decreases |run|
  {
    if run == [] then 0
    else
      (if run[0].src == src && CheckSource(t, run[0], c).decision == Allow then 1 else 0)
      + Passed(CheckSource(t, run[0], c).table, run[1..], src, c)
  }

  ghost predicate Chronological(run: seq<Probe>, from: nat, end: nat) {
    && (forall i :: 0 <= i < |run| ==> from <= run[i].now <= end)
    && (forall i, j :: 0 <= i < j < |run| ==> run[i].now <= run[j].now)
  }

  ghost predicate SaneFor(t: Table, src: Ip, c: Config) {
    src in t ==> Sane(t[src].limiter) && t[src].limiter.maxPps == c.maxPps
  }

  ghost function LevelOf(t: Table, src: Ip, now: nat): real {
    if src in t then Level(t[src].limiter, now) else 0.0
  }

  lemma FreshIsFull(p: Probe, c: Config, now: nat)
    requires c.maxPps > 0.0
    ensures Sane(Fresh(p, c)) && Fresh(p, c).maxPps == c.maxPps && Level(Fresh(p, c), now) == 2.0 * c.maxPps
  {
    RefillGrows(c.maxPps, 0, Monus(now, p.refilled));
  }

  /** One check pays for a packet from the level, after a new admission has filled it. */
  lemma CheckPays(t: Table, p: Probe, src: Ip, c: Config)
    requires c.maxPps > 0.0 && SaneFor(t, src, c)
    ensures var a := CheckSource(t, p, c);
            && SaneFor(a.table, src, c)
            && LevelOf(a.table, src, p.now) + (if p.src == src && a.decision == Allow then 1.0 else 0.0)
               <= LevelOf(t, src, p.now) + (if p.src == src && src !in t then 2.0 * c.maxPps else 0.0)
  {
    FreshIsFull(p, c, p.now);
    if p.src == src {
      CheckKeepsSane(if src in t then t[src].limiter else Fresh(p, c), p.now);
    } else if src in t {
      LevelIsSane(t[src].limiter, p.now);
    }
  }

  lemma LevelOfRises(t: Table, src: Ip, c: Config, a: nat, b: nat)
    requires c.maxPps > 0.0 && SaneFor(t, src, c) && a <= b
    ensures 0.0 <= LevelOf(t, src, a) && LevelOf(t, src, b) <= LevelOf(t, src, a) + Refill(c.maxPps, b - a)
  {
    RefillGrows(c.maxPps, 0, b - a);
    if src in t {
      LevelIsSane(t[src].limiter, a);
      LevelRises(t[src].limiter, a, b);
    }
  }

  /** The full buckets that `src` was given, one for each admission. */
  ghost function Given(t: Table, run: seq<Probe>, src: Ip, c: Config): real
    decreases |run|
  {
    if run == [] then 0.0
    else
      (if run[0].src == src && src !in t then 2.0 * c.maxPps else 0.0)
      + Given(CheckSource(t, run[0], c).table, run[1..], src, c)
  }

  /** `n` full buckets. */
  function FullBuckets(maxPps: real, n: nat): real {
    2.0 * maxPps * n as real
  }

  lemma OneMore(maxPps: real, n: nat)
    ensures FullBuckets(maxPps, n + 1) == 2.0 * maxPps + FullBuckets(maxPps, n)
  {
  }

  lemma {:induction false} GivenCounts(t: Table, run: seq<Probe>, src: Ip, c: Config)
    ensures Given(t, run, src, c) == FullBuckets(c.maxPps, Admissions(t, run, src, c))
    decreases |run|
  {
    if run == [] {
    } else {
      var rest := CheckSource(t, run[0], c).table;
      GivenCounts(rest, run[1..], src, c);
      OneMore(c.maxPps, Admissions(rest, run[1..], src, c));
    }
  }

  lemma RefillSplits(maxPps: real, from: nat, now: nat, end: nat)
    requires from <= now <= end
    ensures Refill(maxPps, end - from) == Refill(maxPps, now - from) + Refill(maxPps, end - now)
  {
    RefillAdds(maxPps, now - from, end - now);
  }

  /** What `src` got is paid by its admissions, by what it could draw on at `from`, and by the refill since. */
  ghost predicate Paid(t: Table, run: seq<Probe>, src: Ip, c: Config, from: nat, end: nat)
    requires from <= end
  {
    Passed(t, run, src, c) as real
    <= Given(t, run, src, c) + LevelOf(t, src, from) + Refill(c.maxPps, end - from)
  }

  lemma PaidStep(t: Table, run: seq<Probe>, src: Ip, c: Config, from: nat, end: nat, a: Answer)
    requires c.maxPps > 0.0 && SaneFor(t, src, c) && run != [] && from <= run[0].now <= end
    requires a == CheckSource(t, run[0], c) && Paid(a.table, run[1..], src, c, run[0].now, end)
    ensures Paid(t, run, src, c, from, end)
  {
    var now, rest := run[0].now, run[1..];
    var one := if run[0].src == src && a.decision == Allow then 1.0 else 0.0;
    var admitted := if run[0].src == src && src !in t then 2.0 * c.maxPps else 0.0;
    calc {
      Passed(t, run, src, c) as real;
    ==
      one + Passed(a.table, rest, src, c) as real;
    <=
      one + Given(a.table, rest, src, c) + LevelOf(a.table, src, now) + Refill(c.maxPps, end - now);
    <=  { CheckPays(t, run[0], src, c); }
      admitted + Given(a.table, rest, src, c) + LevelOf(t, src, now) + Refill(c.maxPps, end - now);
    ==
      Given(t, run, src, c) + LevelOf(t, src, now) + Refill(c.maxPps, end - now);
    <=  { LevelOfRises(t, src, c, from, now); }
      Given(t, run, src, c) + LevelOf(t, src, from) + Refill(c.maxPps, now - from) + Refill(c.maxPps, end - now);
    ==  { RefillSplits(c.maxPps, from, now, end); }
      Given(t, run, src, c) + LevelOf(t, src, from) + Refill(c.maxPps, end - from);
    }
  }

  lemma {:induction false} PassedIsPaid(t: Table, run: seq<Probe>, src: Ip, c: Config, from: nat, end: nat)
    requires c.maxPps > 0.0 && SaneFor(t, src, c) && from <= end && Chronological(run, from, end)
    ensures Paid(t, run, src, c, from, end)
    decreases |run|
  {
    if run == [] {
      LevelOfRises(t, src, c, from, from);
      RefillGrows(c.maxPps, 0, end - from);
    } else {
      var a := CheckSource(t, run[0], c);
      CheckPays(t, run[0], src, c);
      PassedIsPaid(a.table, run[1..], src, c, run[0].now, end);
      PaidStep(t, run, src, c, from, end, a);
    }
  }

  /**
   Over every run from an empty table, a source gets at most one burst for each time it
   enters the table and the rate times the elapsed time.
   */
  lemma SourceBound(run: seq<Probe>, src: Ip, c: Config, from: nat, end: nat)
    requires c.maxPps > 0.0 && from <= end && Chronological(run, from, end)
    ensures Passed(map[], run, src, c) as real
         <= FullBuckets(c.maxPps, Admissions(map[], run, src, c)) + Refill(c.maxPps, end - from)
  {
    PassedIsPaid(map[], run, src, c, from, end);
    GivenCounts(map[], run, src, c);
  }
}
