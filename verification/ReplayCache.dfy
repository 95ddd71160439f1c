/** The replay cache as the relay runs it: a hash map and a queue updated in place. */
module Replay {
  import opened Prelude
  import opened ReplayQueue
  import opened ReplayRestore
  import opened ReplayFile

  /** What reading the snapshot file gives. */
  datatype FileRead = NotFound | ReadFailed | Contents(bytes: Bytes)

  datatype LoadOutcome = Loaded(count: nat) | IoFailed | Invalid(error: LoadError)

  /** The hash map that goes with a queue. */
  function MapOf(q: seq<Entry>): map<Key, nat> {
    if q == [] then map[] else MapOf(q[..|q| - 1])[q[|q| - 1].key := q[|q| - 1].ts]
  }

  lemma HasKeyIffIn(q: seq<Entry>, key: Key)
    ensures key in Keys(q) <==> HasKey(q, key)
  {
    if key in Keys(q) {
      var e :| e in q && e.key == key;
      var i :| 0 <= i < |q| && q[i] == e;
    }
  }

  lemma MapUpdateSize(m: map<Key, nat>, k: Key, v: nat)
    ensures |m[k := v]| == |m| + if k in m then 0 else 1
  {
    assert m[k := v].Keys == m.Keys + {k} && |m[k := v]| == |m[k := v].Keys| && |m| == |m.Keys|;
  }

  lemma DistinctWithLast(init: seq<Entry>, last: Entry)
    ensures DistinctKeys(init + [last]) <==> DistinctKeys(init) && !HasKey(init, last.key)
  {
    var q := init + [last];
    assert forall i :: 0 <= i < |init| ==> q[i] == init[i];
    assert q[|init|] == last;
  }

  lemma KeysWithLast(init: seq<Entry>, last: Entry)
    ensures Keys(init + [last]) == Keys(init) + {last.key}
  {
    assert forall e :: e in init + [last] <==> e in init || e == last;
  }

  ghost predicate HoldsKeys(m: map<Key, nat>, q: seq<Entry>) {
    m.Keys == Keys(q) && |m| <= |q| && (|m| == |q| <==> DistinctKeys(q))
  }

  lemma HoldsKeysWithLast(m: map<Key, nat>, init: seq<Entry>, last: Entry)
    requires HoldsKeys(m, init)
    ensures HoldsKeys(m[last.key := last.ts], init + [last])
  {
    HasKeyIffIn(init, last.key);
    KeysWithLast(init, last);
    DistinctWithLast(init, last);
    MapUpdateSize(m, last.key, last.ts);
  }

  lemma {:induction false} MapOfKeys(q: seq<Entry>)
    ensures MapOf(q).Keys == Keys(q)
    ensures |MapOf(q)| <= |q|
    ensures |MapOf(q)| == |q| <==> DistinctKeys(q)
  {
    if q == [] {
    } else {
      var init, last := q[..|q| - 1], q[|q| - 1];
      MapOfKeys(init);
      assert q == init + [last];
      HoldsKeysWithLast(MapOf(init), init, last);
    }
  }

  /** The map gives every key of the queue its instant. */
  lemma {:induction false} MapOfEntries(q: seq<Entry>, i: nat)
    requires DistinctKeys(q) && i < |q|
    ensures q[i].key in MapOf(q) && MapOf(q)[q[i].key] == q[i].ts
  {
    if i < |q| - 1 {
      MapOfEntries(q[..|q| - 1], i);
    }
  }

  lemma {:induction false} MapOfTailOfDistinct(q: seq<Entry>)
    requires q != [] && DistinctKeys(q)
    ensures MapOf(q[1..]) == MapOf(q) - {q[0].key}
  {
    if |q| > 1 {
      MapOfTailOfDistinct(q[..|q| - 1]);
      assert q[..|q| - 1][1..] == q[1..][..|q| - 2];
    }
  }

  lemma {:induction false} MapOfTail(q: seq<Entry>)
    requires q != [] && |MapOf(q)| == |q|
    ensures MapOf(q[1..]) == MapOf(q) - {q[0].key} && |MapOf(q[1..])| == |q| - 1
  {
    MapOfKeys(q);
    MapOfKeys(q[1..]);
    MapOfTailOfDistinct(q);
  }

  lemma Lookup(q: seq<Entry>, key: Key)
    ensures key in MapOf(q) <==> HasKey(q, key)
  {
    MapOfKeys(q);
    HasKeyIffIn(q, key);
  }

  lemma EvictMisses(live: seq<Entry>, key: Key, maxSize: nat)
    requires !HasKey(live, key) && |live| <= Capacity(maxSize)
    ensures !HasKey(Evict(live, maxSize), key) && |Evict(live, maxSize)| < Capacity(maxSize)
  {
  }

  lemma NotYetPresent(was: seq<Entry>, adopted: seq<Entry>, skip: nat, i: nat)
    requires skip <= i < |adopted| && DistinctKeys(adopted) && Keys(adopted) !! Keys(was)
    ensures !HasKey(was + adopted[skip..i], adopted[i].key)
  {
    var q := was + adopted[skip..i];
    assert adopted[i] in adopted && adopted[i].key in Keys(adopted);
    forall j | 0 <= j < |q| ensures q[j].key != adopted[i].key {
      if j < |was| {
        assert was[j] in was && was[j].key in Keys(was);
      } else {
        assert q[j] == adopted[skip + j - |was|];
      }
    }
  }

  class ReplayCache {
    var stamps: map<Key, nat>
    var queue: seq<Entry>
    const ttl: nat
    const maxSize: nat

    /**
     The map is that of the queue and as large, so that they hold the same distinct keys
     with the same instants (`MapOfKeys`, `MapOfEntries`), within capacity.
     */
    ghost predicate Valid()
      reads this
    {
      && stamps == MapOf(queue) && |stamps| == |queue|
      && |queue| <= Capacity(maxSize)
    }

    constructor (maxSize: nat, ttl: nat)
      ensures Valid() && queue == [] && this.maxSize == maxSize && this.ttl == ttl
    {
      stamps, queue := map[], [];
      this.ttl, this.maxSize := ttl, maxSize;
    }

    method PopFront()
      requires Valid() && queue != []
      modifies this
      ensures Valid() && queue == old(queue)[1..]
    {
      MapOfTail(queue);
      stamps := stamps - {queue[0].key};
      queue := queue[1..];
    }

    method PushBack(key: Key, ts: nat)
      requires Valid() && !HasKey(queue, key) && |queue| < Capacity(maxSize)
      modifies this
      ensures Valid() && queue == old(queue) + [Entry(key, ts)]
    {
      MapOfKeys(queue);
      HasKeyIffIn(queue, key);
      stamps := stamps[key := ts];
      queue := queue + [Entry(key, ts)];
      assert queue[..|queue| - 1] == old(queue);
    }

    method SweepExpired(now: nat)
      requires Valid()
      modifies this
      ensures Valid() && queue == Sweep(old(queue), now, ttl)
    {
      while queue != [] && Monus(now, queue[0].ts) > ttl
        invariant Valid() && Sweep(queue, now, ttl) == Sweep(old(queue), now, ttl)
        decreases |queue|
      {
        PopFront();
      }
    }

    /**
     Tells whether `key` was seen within the lifetime and still fits the capacity, and
     records it if not. The answer is that of the log of all accepted keys, by
     `ReplayQueue.QueueRefinesLog`.
     */
    method CheckAndInsertAt(key: Key, now: nat) returns (check: ReplayCheck)
      requires Valid()
      modifies this
      ensures Valid() && Verdict(queue, check) == CheckAndInsert(old(queue), key, now, ttl, maxSize)
    {
      SweepExpired(now);
      ghost var live := queue;
      Lookup(queue, key);
      if key in stamps {
        return Replay;
      }
      if |stamps| >= maxSize {
        if queue != [] {
          PopFront();
        }
      }
      assert queue == Evict(live, maxSize);
      EvictMisses(live, key, maxSize);
      PushBack(key, now);
      check := Fresh;
    }

    /** The file image: the magic, then one record for each live entry in queue order. */
    method EncodeInto(now: nat, nowUnix: u64, magic: Bytes) returns (buf: Bytes)
      ensures buf == magic + EncodeRecords(Snapshot(queue, now, nowUnix, ttl))
    {
      buf := magic;
      for i := 0 to |queue|
        invariant buf + EncodeRecords(Snapshot(queue[i..], now, nowUnix, ttl))
               == magic + EncodeRecords(Snapshot(queue, now, nowUnix, ttl))
      {
        var e := queue[i];
        ghost var rest := Snapshot(queue[i + 1..], now, nowUnix, ttl);
        assert queue[i..][1..] == queue[i + 1..];
        var elapsed := Monus(now, e.ts);
        if elapsed > ttl {
          assert Snapshot(queue[i..], now, nowUnix, ttl) == rest;
          continue;
        }
        assert Snapshot(queue[i..], now, nowUnix, ttl) == [ToRecord(e, now, nowUnix)] + rest;
        AppendRecord(buf, ToRecord(e, now, nowUnix), rest);
        buf := buf + ToBigEndian(e.key, 16);
        buf := buf + ToBigEndian(Monus(nowUnix, elapsed / SECOND), 8);
      }
    }

    /** The candidates of a restore: the live records as entries of this process. */
    method Revived(entries: seq<Record>, now: nat, nowUnix: u64) returns (adopted: seq<Entry>)
      ensures adopted == Candidates(entries, now, nowUnix, ttl)
    {
      adopted := [];
      for i := 0 to |entries|
        invariant adopted + Candidates(entries[i..], now, nowUnix, ttl) == Candidates(entries, now, nowUnix, ttl)
      {
        assert entries[i..][1..] == entries[i + 1..];
        var age := Monus(nowUnix, entries[i].unix) * SECOND;
        if age > ttl {
          continue;
        }
        adopted := adopted + [Entry(entries[i].key, if age <= now then now - age else now)];
      }
    }

    /** `retain`: drops what the cache already holds and later entries of the same key. */
    method Retained(adopted: seq<Entry>) returns (kept: seq<Entry>)
      requires Valid()
      ensures kept == FirstOfEach(adopted, Keys(queue))
    {
      MapOfKeys(queue);
      kept := [];
      var seen: set<Key> := {};
      ghost var taken := Keys(queue);
      assert adopted[0..] == adopted;
      for i := 0 to |adopted|
        invariant forall k :: k in taken <==> k in stamps || k in seen
        invariant kept + FirstOfEach(adopted[i..], taken) == FirstOfEach(adopted, Keys(queue))
      {
        var e := adopted[i];
        ghost var rest := FirstOfEach(adopted[i + 1..], taken + {e.key});
        assert adopted[i..][1..] == adopted[i + 1..];
        if e.key !in stamps && e.key !in seen {
          assert kept + ([e] + rest) == kept + [e] + rest;
          taken := taken + {e.key};
          seen := seen + {e.key};
          kept := kept + [e];
        }
      }
    }

    /** Inserts the entries from `skip` on, while there is room. */
    method InsertFrom(adopted: seq<Entry>, skip: nat) returns (count: nat)
      requires Valid() && DistinctKeys(adopted) && Keys(adopted) !! Keys(queue)
      requires skip <= |adopted| && |adopted| - skip <= Monus(maxSize, |queue|)
      modifies this
      ensures Valid() && queue == old(queue) + adopted[skip..] && count == |adopted| - skip
    {
      count := 0;
      for i := skip to |adopted|
        invariant Valid() && queue == old(queue) + adopted[skip..i] && count == i - skip
      {
        if |stamps| >= maxSize {
          break;
        }
        NotYetPresent(old(queue), adopted, skip, i);
        PushBack(adopted[i].key, adopted[i].ts);
        count := count + 1;
      }
    }

    /**
     Adopts the entries of a snapshot: the queue grows by `Adopted`, whose contents
     `ReplayRestore.RestoreKeepsTheNewest` describes. Nothing held before is touched,
     and the guard inside the last loop never stops it early.
     */
    method RestoreAt(entries: seq<Record>, now: nat, nowUnix: u64) returns (count: nat)
      requires Valid()
      modifies this
      ensures Valid()
      ensures queue == old(queue) + Adopted(old(queue), entries, now, nowUnix, ttl, maxSize)
      ensures count == |Adopted(old(queue), entries, now, nowUnix, ttl, maxSize)|
    {
      var adopted := Revived(entries, now, nowUnix);
      adopted := SortByTs(adopted);
      adopted := Retained(adopted);
      NewcomersAreTheNewKeys(queue, entries, now, nowUnix, ttl);
      NewcomersAreOldest(queue, entries, now, nowUnix, ttl);
      MapOfKeys(queue);
      var room := Monus(maxSize, |stamps|);
      var skip := Monus(|adopted|, room);
      count := InsertFrom(adopted, skip);
    }

    /** A missing file loads nothing; a damaged one is refused without touching the cache. */
    method Load(file: FileRead, now: nat, nowUnix: u64) returns (outcome: LoadOutcome)
      requires Valid()
      modifies this
      ensures Valid()
      ensures outcome.Loaded? && file.Contents? ==>
                && ParseFile(file.bytes).Accepted?
                && var a := Adopted(old(queue), ParseFile(file.bytes).records, now, nowUnix, ttl, maxSize);
                   queue == old(queue) + a && outcome.count == |a|
      ensures !(outcome.Loaded? && file.Contents?) ==> queue == old(queue) && stamps == old(stamps)
      ensures file.NotFound? ==> outcome == Loaded(0)
      ensures file.ReadFailed? ==> outcome.IoFailed?
      ensures file.Contents? && ParseFile(file.bytes).Refused? ==> outcome == Invalid(ParseFile(file.bytes).error)
      ensures file.Contents? && ParseFile(file.bytes).Accepted? ==> outcome.Loaded?
    {
      match file
      case NotFound => outcome := Loaded(0);
      case ReadFailed => outcome := IoFailed;
      case Contents(bytes) =>
        match ParseFile(bytes)
        case Refused(error) => outcome := Invalid(error);
        case Accepted(records) =>
          var count := RestoreAt(records, now, nowUnix);
          outcome := Loaded(count);
    }
  }
}
