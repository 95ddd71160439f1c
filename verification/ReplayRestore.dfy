/**
 Restoring a snapshot: which of the recorded γ values a cache adopts, and when it
 believes it saw them. Recorded ages are whole seconds of the wall clock, instants
 belong to the running process.
 */
module ReplayRestore {
  import opened Prelude
  import opened ReplayQueue

  /** One record of the snapshot: γ and the wall-clock second it was seen in. */
  datatype Record = Record(key: Key, unix: u64)

  function AgeSeconds(r: Record, nowUnix: u64): nat {
    Monus(nowUnix, r.unix)
  }

  predicate Live(r: Record, nowUnix: u64, ttl: nat) {
    AgeSeconds(r, nowUnix) * SECOND <= ttl
  }

  /** `checked_sub`, falling back to the present when the instant would precede the clock's origin. */
  function RestoredTs(r: Record, now: nat, nowUnix: u64): (ts: nat)
    ensures ts <= now
  {
    var age := AgeSeconds(r, nowUnix) * SECOND;
    if age <= now then now - age else now
  }

  function Revive(r: Record, now: nat, nowUnix: u64): Entry {
    Entry(r.key, RestoredTs(r, now, nowUnix))
  }

  function Candidates(rs: seq<Record>, now: nat, nowUnix: u64, ttl: nat): seq<Entry> {
    if rs == [] then []
    else (if Live(rs[0], nowUnix, ttl) then [Revive(rs[0], now, nowUnix)] else [])
         + Candidates(rs[1..], now, nowUnix, ttl)
  }

  // ------------------------------------------------- `sort_by_key` on instants

  function InsertByTs(e: Entry, s: seq<Entry>): seq<Entry> {
    if s == [] || e.ts <= s[0].ts then [e] + s else [s[0]] + InsertByTs(e, s[1..])
  }

  function SortByTs(s: seq<Entry>): seq<Entry> {
    if s == [] then [] else InsertByTs(s[0], SortByTs(s[1..]))
  }

  function SeenAt(s: seq<Entry>, ts: nat): seq<Entry> {
    if s == [] then [] else (if s[0].ts == ts then [s[0]] else []) + SeenAt(s[1..], ts)
  }

  lemma {:induction false} InsertByTsPermutes(e: Entry, s: seq<Entry>)
    ensures multiset(InsertByTs(e, s)) == multiset{e} + multiset(s)
  {
    if s != [] && e.ts > s[0].ts {
      InsertByTsPermutes(e, s[1..]);
      assert s == [s[0]] + s[1..];
    }
  }

  lemma PrependOrdered(e: Entry, s: seq<Entry>)
    requires TimeOrdered(s) && (s != [] ==> e.ts <= s[0].ts)
    ensures TimeOrdered([e] + s)
  {
    forall i | 0 <= i < |s| ensures e.ts <= s[i].ts {
      assert s[0].ts <= s[i].ts;
    }
  }

  lemma {:induction false} InsertByTsOrders(e: Entry, s: seq<Entry>)
    requires TimeOrdered(s)
    ensures TimeOrdered(InsertByTs(e, s))
    ensures InsertByTs(e, s)[0].ts == if s == [] then e.ts else Min(e.ts, s[0].ts)
  {
    if s != [] && e.ts > s[0].ts {
      InsertByTsOrders(e, s[1..]);
      PrependOrdered(s[0], InsertByTs(e, s[1..]));
    } else {
      PrependOrdered(e, s);
    }
  }

  lemma {:induction false} InsertByTsIsStable(e: Entry, s: seq<Entry>, ts: nat)
    ensures SeenAt(InsertByTs(e, s), ts) == SeenAt([e] + s, ts)
  {
    assert ([e] + s)[1..] == s;
    if s != [] && e.ts > s[0].ts {
      InsertByTsIsStable(e, s[1..], ts);
      assert InsertByTs(e, s)[1..] == InsertByTs(e, s[1..]);
      assert ([e] + s[1..])[1..] == s[1..];
    }
  }

  /** The sort is an ordered permutation. */
  lemma {:induction false} SortByTsOrders(s: seq<Entry>)
    ensures TimeOrdered(SortByTs(s))
    ensures multiset(SortByTs(s)) == multiset(s)
  {
    if s == [] {
    } else {
      SortByTsOrders(s[1..]);
      InsertByTsOrders(s[0], SortByTs(s[1..]));
      InsertByTsPermutes(s[0], SortByTs(s[1..]));
      assert s == [s[0]] + s[1..];
    }
  }

  /** The sort is stable: entries of equal instants keep their order. */
  lemma {:induction false} SortByTsIsStable(s: seq<Entry>, ts: nat)
    ensures SeenAt(SortByTs(s), ts) == SeenAt(s, ts)
  {
    if s == [] {
    } else {
      SortByTsIsStable(s[1..], ts);
      InsertByTsIsStable(s[0], SortByTs(s[1..]), ts);
      assert ([s[0]] + SortByTs(s[1..]))[1..] == SortByTs(s[1..]);
    }
  }

  lemma {:induction false} SortOfOrdered(s: seq<Entry>)
    requires TimeOrdered(s)
    ensures SortByTs(s) == s
  {
    if s == [] {
    } else {
      SortOfOrdered(s[1..]);
      assert s == [s[0]] + s[1..];
    }
  }

  // ------------------------------------------------ `retain` with a seen set

  ghost function Keys(s: seq<Entry>): set<Key> {
    set e | e in s :: e.key
  }

  /** Keeps the first entry of every key that is not in `seen`. */
  function FirstOfEach(s: seq<Entry>, seen: set<Key>): seq<Entry> {
    if s == [] then []
    else if s[0].key in seen then FirstOfEach(s[1..], seen)
    else [s[0]] + FirstOfEach(s[1..], seen + {s[0].key})
  }

  /** `e` is an entry of `s`, and no entry of `s` has its key with an earlier instant. */
  ghost predicate EarliestIn(e: Entry, s: seq<Entry>) {
    e in s && forall x :: x in s && x.key == e.key ==> e.ts <= x.ts
  }

  lemma {:induction false} FirstOfEachKeys(s: seq<Entry>, seen: set<Key>)
    ensures var r := FirstOfEach(s, seen);
            && (forall e :: e in r ==> e in s && e.key !in seen)
            && (forall e :: e in s && e.key !in seen ==> e.key in Keys(r))
  {
    if s == [] {
    } else {
      assert s == [s[0]] + s[1..];
      if s[0].key in seen {
        FirstOfEachKeys(s[1..], seen);
      } else {
        FirstOfEachKeys(s[1..], seen + {s[0].key});
        assert s[0] in FirstOfEach(s, seen);
      }
    }
  }

  lemma {:induction false} FirstOfEachOrdered(s: seq<Entry>, seen: set<Key>)
    requires TimeOrdered(s)
    ensures TimeOrdered(FirstOfEach(s, seen)) && DistinctKeys(FirstOfEach(s, seen))
  {
    if s == [] {
    } else {
      var head, tail := s[0], s[1..];
      if head.key in seen {
        FirstOfEachOrdered(tail, seen);
      } else {
        var rest := FirstOfEach(tail, seen + {head.key});
        FirstOfEachOrdered(tail, seen + {head.key});
        FirstOfEachKeys(tail, seen + {head.key});
        forall i | 0 <= i < |rest| ensures head.ts <= rest[i].ts && head.key != rest[i].key {
          assert rest[i] in rest;
        }
      }
    }
  }

  lemma {:induction false} FirstOfEachIsEarliest(s: seq<Entry>, seen: set<Key>)
    requires TimeOrdered(s)
    ensures forall e :: e in FirstOfEach(s, seen) ==> EarliestIn(e, s)
  {
    if s == [] {
    } else {
      var head, tail := s[0], s[1..];
      assert s == [head] + tail;
      assert forall x :: x in tail ==> head.ts <= x.ts;
      if head.key in seen {
        FirstOfEachIsEarliest(tail, seen);
        FirstOfEachKeys(tail, seen);
      } else {
        FirstOfEachIsEarliest(tail, seen + {head.key});
        FirstOfEachKeys(tail, seen + {head.key});
      }
    }
  }

  lemma {:induction false} DistinctCount(s: seq<Entry>)
    requires DistinctKeys(s)
    ensures |Keys(s)| == |s|
  {
    if s == [] {
    } else {
      DistinctCount(s[1..]);
      assert Keys(s) == Keys(s[1..]) + {s[0].key};
    }
  }

  // ------------------------------------------------------------- restore_at

  ghost function Newcomers(q: seq<Entry>, rs: seq<Record>, now: nat, nowUnix: u64, ttl: nat): seq<Entry> {
    FirstOfEach(SortByTs(Candidates(rs, now, nowUnix, ttl)), Keys(q))
  }

  function KeepLast(s: seq<Entry>, room: nat): seq<Entry> {
    s[Monus(|s|, room)..]
  }

  /** The entries that a restore appends to the queue. */
  ghost function Adopted(q: seq<Entry>, rs: seq<Record>, now: nat, nowUnix: u64, ttl: nat, maxSize: nat): seq<Entry> {
    KeepLast(Newcomers(q, rs, now, nowUnix, ttl), Monus(maxSize, |q|))
  }

  /** The distinct keys of the live records that the cache does not hold yet. */
  ghost function NewKeys(q: seq<Entry>, rs: seq<Record>, nowUnix: u64, ttl: nat): set<Key> {
    (set r | r in rs && Live(r, nowUnix, ttl) :: r.key) - Keys(q)
  }

  /** `ts` is the restored instant of the oldest live record of `key`. */
  ghost predicate OldestRecord(key: Key, ts: nat, rs: seq<Record>, now: nat, nowUnix: u64, ttl: nat) {
    && (exists r :: r in rs && r.key == key && Live(r, nowUnix, ttl) && RestoredTs(r, now, nowUnix) == ts)
    && (forall r :: r in rs && r.key == key && Live(r, nowUnix, ttl) ==> ts <= RestoredTs(r, now, nowUnix))
  }

  /** The restored instant of the oldest live record of `key` (the present if there is none). */
  ghost function OldestRestored(key: Key, rs: seq<Record>, now: nat, nowUnix: u64, ttl: nat): (ts: nat)
    ensures ts <= now
    ensures forall t :: OldestRecord(key, t, rs, now, nowUnix, ttl) ==> t == ts
  {
    if t: nat :| OldestRecord(key, t, rs, now, nowUnix, ttl) then t else now
  }

  lemma {:induction false} CandidatesAreLive(rs: seq<Record>, now: nat, nowUnix: u64, ttl: nat)
    ensures forall r :: r in rs && Live(r, nowUnix, ttl)
                        ==> Revive(r, now, nowUnix) in Candidates(rs, now, nowUnix, ttl)
    ensures forall e :: e in Candidates(rs, now, nowUnix, ttl)
                        ==> exists r :: r in rs && Live(r, nowUnix, ttl) && Revive(r, now, nowUnix) == e
  {
    if rs == [] {
    } else {
      CandidatesAreLive(rs[1..], now, nowUnix, ttl);
      assert rs == [rs[0]] + rs[1..];
    }
  }

  lemma SortKeepsEntries(s: seq<Entry>)
    ensures forall e :: e in SortByTs(s) <==> e in s
  {
    SortByTsOrders(s);
    forall e ensures e in SortByTs(s) <==> e in s {
      assert e in SortByTs(s) <==> e in multiset(SortByTs(s));
      assert e in s <==> e in multiset(s);
    }
  }

  lemma NewcomersAreTheNewKeys(q: seq<Entry>, rs: seq<Record>, now: nat, nowUnix: u64, ttl: nat)
    ensures Keys(Newcomers(q, rs, now, nowUnix, ttl)) == NewKeys(q, rs, nowUnix, ttl)
  {
    var c, n := Candidates(rs, now, nowUnix, ttl), Newcomers(q, rs, now, nowUnix, ttl);
    var s := SortByTs(c);
    CandidatesAreLive(rs, now, nowUnix, ttl);
    SortKeepsEntries(c);
    FirstOfEachKeys(s, Keys(q));
    forall k | k in NewKeys(q, rs, nowUnix, ttl) ensures k in Keys(n) {
      var r :| r in rs && Live(r, nowUnix, ttl) && r.key == k;
      assert Revive(r, now, nowUnix) in s;
    }
  }

  lemma NewcomersAreOldest(q: seq<Entry>, rs: seq<Record>, now: nat, nowUnix: u64, ttl: nat)
    ensures var n := Newcomers(q, rs, now, nowUnix, ttl);
            && TimeOrdered(n) && DistinctKeys(n)
            && forall e :: e in n ==> OldestRecord(e.key, e.ts, rs, now, nowUnix, ttl)
  {
    var c := Candidates(rs, now, nowUnix, ttl);
    var s := SortByTs(c);
    CandidatesAreLive(rs, now, nowUnix, ttl);
    SortByTsOrders(c);
    SortKeepsEntries(c);
    FirstOfEachOrdered(s, Keys(q));
    FirstOfEachIsEarliest(s, Keys(q));
    forall e | e in Newcomers(q, rs, now, nowUnix, ttl) ensures OldestRecord(e.key, e.ts, rs, now, nowUnix, ttl) {
      assert EarliestIn(e, s);
      forall r | r in rs && r.key == e.key && Live(r, nowUnix, ttl) ensures e.ts <= RestoredTs(r, now, nowUnix) {
        assert Revive(r, now, nowUnix) in s;
      }
    }
  }

  lemma KeepLastOfOrdered(n: seq<Entry>, room: nat)
    requires TimeOrdered(n) && DistinctKeys(n)
    ensures var a := KeepLast(n, room);
            && |a| == Min(room, |n|) && TimeOrdered(a) && DistinctKeys(a)
            && (forall e :: e in a ==> e in n)
  {
  }

  lemma LeftOutIsOlder(n: seq<Entry>, room: nat, x: Entry, e: Entry)
    requires TimeOrdered(n) && x in n && e in KeepLast(n, room)
    ensures x.key in Keys(KeepLast(n, room)) || x.ts <= e.ts
  {
    var a := KeepLast(n, room);
    var skip := |n| - |a|;
    var i :| 0 <= i < |n| && n[i] == x;
    var j :| 0 <= j < |a| && a[j] == e;
    assert e == n[skip + j];
    if i >= skip {
      assert a[i - skip] == x;
    }
  }

  /**
   A restore adopts as many of the new live keys as there is room for. Each is stamped
   with its oldest live record, no key is adopted twice or already present, and a key
   that is left out is no newer than any adopted one.
   */
  lemma RestoreKeepsTheNewest(q: seq<Entry>, rs: seq<Record>, now: nat, nowUnix: u64, ttl: nat, maxSize: nat)
    ensures var a := Adopted(q, rs, now, nowUnix, ttl, maxSize);
            && |a| == Min(Monus(maxSize, |q|), |NewKeys(q, rs, nowUnix, ttl)|)
            && TimeOrdered(a) && DistinctKeys(a) && Keys(a) <= NewKeys(q, rs, nowUnix, ttl)
            && (forall e :: e in a ==> OldestRecord(e.key, e.ts, rs, now, nowUnix, ttl))
            && (forall r, e :: r in rs && Live(r, nowUnix, ttl) && e in a
                               && r.key in NewKeys(q, rs, nowUnix, ttl) - Keys(a)
                               ==> OldestRestored(r.key, rs, now, nowUnix, ttl) <= e.ts)
  {
    var n, a := Newcomers(q, rs, now, nowUnix, ttl), Adopted(q, rs, now, nowUnix, ttl, maxSize);
    NewcomersAreTheNewKeys(q, rs, now, nowUnix, ttl);
    NewcomersAreOldest(q, rs, now, nowUnix, ttl);
    DistinctCount(n);
    KeepLastOfOrdered(n, Monus(maxSize, |q|));
    forall r, e | r in rs && Live(r, nowUnix, ttl) && r.key in NewKeys(q, rs, nowUnix, ttl) - Keys(a) && e in a
      ensures OldestRestored(r.key, rs, now, nowUnix, ttl) <= e.ts
    {
      var x :| x in n && x.key == r.key;
      LeftOutIsOlder(n, Monus(maxSize, |q|), x, e);
    }
  }

  /** A cache that starts from a snapshot starts well formed. */
  lemma RestoredQueue(rs: seq<Record>, now: nat, nowUnix: u64, ttl: nat, maxSize: nat)
    ensures WellFormed(Adopted([], rs, now, nowUnix, ttl, maxSize), now, Capacity(maxSize))
  {
    var q := Adopted([], rs, now, nowUnix, ttl, maxSize);
    RestoreKeepsTheNewest([], rs, now, nowUnix, ttl, maxSize);
    forall i | 0 <= i < |q| ensures q[i].ts <= now {
      assert q[i] in q;
    }
  }
}
