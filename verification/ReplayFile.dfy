/**
 The on-disk snapshot of the replay cache: an 8-byte magic followed by 24-byte records
 (γ, then the wall-clock second in big-endian order).
 */
module ReplayFile {
  import opened Prelude
  import opened ReplayQueue
  import opened ReplayRestore

  /** "GTHMRPL1" */
  const MAGIC: Bytes := [71, 84, 72, 77, 82, 80, 76, 49]

  const RECORD: nat := 24

  datatype LoadError = BadMagic | TruncatedRecord

  datatype Parsed = Accepted(records: seq<Record>) | Refused(error: LoadError)

  // ----------------------------------------------------------------- encoding

  /** What the snapshot says of one entry: its age in whole seconds before `nowUnix`. */
  function ToRecord(e: Entry, now: nat, nowUnix: u64): Record {
    Record(e.key, Monus(nowUnix, Monus(now, e.ts) / SECOND))
  }

  function Snapshot(q: seq<Entry>, now: nat, nowUnix: u64, ttl: nat): seq<Record> {
    if q == [] then []
    else (if Expired(q[0], now, ttl) then [] else [ToRecord(q[0], now, nowUnix)])
         + Snapshot(q[1..], now, nowUnix, ttl)
  }

  function EncodeRecord(r: Record): (b: Bytes)
    ensures |b| == RECORD
  {
    ToBigEndian(r.key, 16) + ToBigEndian(r.unix, 8)
  }

  function EncodeRecords(rs: seq<Record>): (b: Bytes)
    ensures |b| == 24 * |rs| && |b| % RECORD == 0
  {
    if rs == [] then [] else EncodeRecord(rs[0]) + EncodeRecords(rs[1..])
  }

  function EncodeFile(rs: seq<Record>): Bytes {
    MAGIC + EncodeRecords(rs)
  }

  // ------------------------------------------------------------------ parsing

  lemma KeyWidth()
    ensures Pow256(16) == KEY_LIMIT
  {
    Pow256Widths();
    assert Pow256(10) == 0x1_0000 * Pow256(8);
    assert Pow256(12) == 0x1_0000 * Pow256(10);
    assert Pow256(14) == 0x1_0000 * Pow256(12);
    assert Pow256(16) == 0x1_0000 * Pow256(14);
  }

  lemma RecordBounds(b: Bytes)
    requires |b| == RECORD
    ensures FromBigEndian(b[..16]) < KEY_LIMIT && FromBigEndian(b[16..]) < U64_LIMIT
  {
    BigEndianBound(b[..16]);
    BigEndianBound(b[16..]);
    KeyWidth();
    Pow256Widths();
  }

  function ParseRecord(b: Bytes): Record
    requires |b| == RECORD
  {
    RecordBounds(b);
    Record(FromBigEndian(b[..16]), FromBigEndian(b[16..]))
  }

  function ParseRecords(body: Bytes): seq<Record>
    requires |body| % RECORD == 0
  {
    if body == [] then [] else [ParseRecord(body[..RECORD])] + ParseRecords(body[RECORD..])
  }

  function ParseFile(file: Bytes): Parsed {
    if |file| < |MAGIC| || file[..|MAGIC|] != MAGIC then Refused(BadMagic)
    else if (|file| - |MAGIC|) % RECORD != 0 then Refused(TruncatedRecord)
    else Accepted(ParseRecords(file[|MAGIC|..]))
  }

  // --------------------------------------------------------------- byte by byte

  lemma RecordInBytes(r: Record)
    ensures FromBigEndian(EncodeRecord(r)[..16]) == r.key && FromBigEndian(EncodeRecord(r)[16..]) == r.unix
  {
    KeyWidth();
    Pow256Widths();
    BigEndianRoundTrip(r.key, 16);
    BigEndianRoundTrip(r.unix, 8);
    assert EncodeRecord(r)[..16] == ToBigEndian(r.key, 16) && EncodeRecord(r)[16..] == ToBigEndian(r.unix, 8);
  }

  lemma LaterSlice(first: Bytes, rest: Bytes, at: nat)
    requires |first| == 24 && at + 24 <= |rest|
    ensures (first + rest)[..24] == first && (first + rest)[24 + at..48 + at] == rest[at..at + 24]
  {
  }

  lemma {:induction false} RecordsInBytes(rs: seq<Record>, i: nat)
    requires i < |rs|
    ensures EncodeRecords(rs)[24 * i..24 * i + 24] == EncodeRecord(rs[i])
  {
    var first, rest := EncodeRecord(rs[0]), EncodeRecords(rs[1..]);
    if i == 0 {
      assert (first + rest)[..24] == first;
    } else {
      RecordsInBytes(rs[1..], i - 1);
      LaterSlice(first, rest, 24 * (i - 1));
    }
  }

  lemma SliceOfSlice(head: Bytes, body: Bytes, at: nat, record: Bytes)
    requires |head| == 8 && |record| == 24 && at + 24 <= |body| && body[at..at + 24] == record
    ensures (head + body)[8 + at..24 + at] == record[..16] && (head + body)[24 + at..32 + at] == record[16..]
  {
    assert (head + body)[8 + at..24 + at] == body[at..at + 24][..16];
    assert (head + body)[24 + at..32 + at] == body[at..at + 24][16..];
  }

  /** Record `i` stands at its place in the file: 16 bytes of γ, then 8 of its wall-clock second. */
  ghost predicate StandsAt(file: Bytes, i: nat, r: Record) {
    && 32 + 24 * i <= |file|
    && FromBigEndian(file[8 + 24 * i..24 + 24 * i]) == r.key
    && FromBigEndian(file[24 + 24 * i..32 + 24 * i]) == r.unix
  }

  lemma RecordStandsAt(rs: seq<Record>, i: nat)
    requires i < |rs|
    ensures StandsAt(EncodeFile(rs), i, rs[i])
  {
    RecordsInBytes(rs, i);
    SliceOfSlice(MAGIC, EncodeRecords(rs), 24 * i, EncodeRecord(rs[i]));
    RecordInBytes(rs[i]);
  }

  /** The file: the letters GTHMRPL1, then the records one after the other. */
  lemma FileInBytes(rs: seq<Record>)
    ensures |EncodeFile(rs)| == 8 + 24 * |rs| && EncodeFile(rs)[..8] == [71, 84, 72, 77, 82, 80, 76, 49]
    ensures forall i :: 0 <= i < |rs| ==> StandsAt(EncodeFile(rs), i, rs[i])
  {
    forall i | 0 <= i < |rs| ensures StandsAt(EncodeFile(rs), i, rs[i]) {
      RecordStandsAt(rs, i);
    }
  }

  /** A file is refused for its magic if it does not begin with those letters, and otherwise if a record is cut off. */
  lemma RefusedExactly(file: Bytes)
    ensures var begins := |file| >= 8 && file[..8] == [71, 84, 72, 77, 82, 80, 76, 49];
            && (ParseFile(file) == Refused(BadMagic) <==> !begins)
            && (ParseFile(file) == Refused(TruncatedRecord) <==> begins && (|file| - 8) % 24 != 0)
  {
  }

  // -------------------------------------------------------------- round trips

  lemma RecordRoundTrip(r: Record)
    ensures ParseRecord(EncodeRecord(r)) == r
  {
    var b := EncodeRecord(r);
    KeyWidth();
    Pow256Widths();
    BigEndianRoundTrip(r.key, 16);
    BigEndianRoundTrip(r.unix, 8);
    assert b[..16] == ToBigEndian(r.key, 16);
    assert b[16..] == ToBigEndian(r.unix, 8);
  }

  lemma RecordUnique(b: Bytes)
    requires |b| == RECORD
    ensures EncodeRecord(ParseRecord(b)) == b
  {
    BigEndianUnique(b[..16]);
    BigEndianUnique(b[16..]);
    assert b == b[..16] + b[16..];
  }

  lemma {:induction false} RecordsRoundTrip(rs: seq<Record>)
    ensures ParseRecords(EncodeRecords(rs)) == rs
  {
    if rs == [] {
    } else {
      var b := EncodeRecords(rs);
      assert b[..RECORD] == EncodeRecord(rs[0]);
      assert b[RECORD..] == EncodeRecords(rs[1..]);
      RecordRoundTrip(rs[0]);
      RecordsRoundTrip(rs[1..]);
    }
  }

  lemma EncodeCons(r: Record, rs: seq<Record>)
    ensures EncodeRecords([r] + rs) == EncodeRecord(r) + EncodeRecords(rs)
  {
    assert ([r] + rs)[1..] == rs;
  }

  /** Appending a record's two fields to a buffer appends the record. */
  lemma AppendRecord(buf: Bytes, r: Record, rest: seq<Record>)
    ensures buf + ToBigEndian(r.key, 16) + ToBigEndian(r.unix, 8) + EncodeRecords(rest) ==
        buf + EncodeRecords([r] + rest)
  {
    EncodeCons(r, rest);
  }

  lemma ParseCons(body: Bytes, first: Bytes, rest: Bytes)
    requires |first| == RECORD && |rest| % RECORD == 0 && body == first + rest
    ensures ParseRecords(body) == [ParseRecord(first)] + ParseRecords(rest)
  {
    assert body[..RECORD] == first && body[RECORD..] == rest;
  }

  lemma DropsOneRecord(n: nat)
    requires n > 0 && n % RECORD == 0
    ensures n >= RECORD && (n - RECORD) % RECORD == 0
  {
  }

  lemma {:induction false} RecordsUnique(body: Bytes)
    requires |body| % RECORD == 0
    ensures EncodeRecords(ParseRecords(body)) == body
  {
    if body == [] {
    } else {
      DropsOneRecord(|body|);
      var first, rest := body[..RECORD], body[RECORD..];
      RecordUnique(first);
      RecordsUnique(rest);
      ParseCons(body, first, rest);
      EncodeCons(ParseRecord(first), ParseRecords(rest));
    }
  }

  lemma ParseOfBody(file: Bytes, body: Bytes)
    requires |body| % RECORD == 0 && file == MAGIC + body
    ensures ParseFile(file) == Accepted(ParseRecords(body))
  {
    assert file[..|MAGIC|] == MAGIC;
    assert file[|MAGIC|..] == body;
  }

  /** Parsing inverts encoding, for every list of records. */
  lemma ParseOfEncode(rs: seq<Record>)
    ensures ParseFile(EncodeFile(rs)) == Accepted(rs)
  {
    RecordsRoundTrip(rs);
    ParseOfBody(EncodeFile(rs), EncodeRecords(rs));
  }

  /** A file is accepted exactly when it is the encoding of some records: those it parses to. */
  lemma AcceptedIsEncoded(file: Bytes)
    ensures ParseFile(file).Accepted? <==> exists rs :: EncodeFile(rs) == file
    ensures ParseFile(file).Accepted? ==> EncodeFile(ParseFile(file).records) == file
  {
    if ParseFile(file).Accepted? {
      RecordsUnique(file[|MAGIC|..]);
      assert file == file[..|MAGIC|] + file[|MAGIC|..];
      assert EncodeFile(ParseFile(file).records) == file;
    }
    forall rs | EncodeFile(rs) == file ensures ParseFile(file).Accepted? {
      ParseOfEncode(rs);
    }
  }

  // ------------------------------------------- save and load at one moment

  /** The entry that comes back when `e` is saved and loaded at the same clock readings. */
  function Reloaded(e: Entry, now: nat, nowUnix: u64): Entry {
    Revive(ToRecord(e, now, nowUnix), now, nowUnix)
  }

  function ReloadedAll(q: seq<Entry>, now: nat, nowUnix: u64, ttl: nat): seq<Entry> {
    if q == [] then []
    else (if Expired(q[0], now, ttl) then [] else [Reloaded(q[0], now, nowUnix)])
         + ReloadedAll(q[1..], now, nowUnix, ttl)
  }

  function LiveEntries(q: seq<Entry>, now: nat, ttl: nat): seq<Entry> {
    if q == [] then []
    else (if Expired(q[0], now, ttl) then [] else [q[0]]) + LiveEntries(q[1..], now, ttl)
  }

  /** Reloading never makes an entry older, and at most one second younger. */
  lemma ReloadedInstant(e: Entry, now: nat, nowUnix: u64)
    requires e.ts <= now
    ensures Reloaded(e, now, nowUnix).ts == now - Min((now - e.ts) / SECOND, nowUnix) * SECOND
    ensures e.ts <= Reloaded(e, now, nowUnix).ts
    ensures (now - e.ts) / SECOND <= nowUnix ==> Reloaded(e, now, nowUnix).ts < e.ts + SECOND
  {
    var a := (now - e.ts) / SECOND;
    assert Min(a, nowUnix) * SECOND <= a * SECOND <= now - e.ts;
  }

  lemma ReloadedOrder(e: Entry, f: Entry, now: nat, nowUnix: u64)
    requires e.ts <= f.ts <= now
    ensures Reloaded(e, now, nowUnix).ts <= Reloaded(f, now, nowUnix).ts
  {
    ReloadedInstant(e, now, nowUnix);
    ReloadedInstant(f, now, nowUnix);
    assert (now - f.ts) / SECOND <= (now - e.ts) / SECOND;
  }

  lemma {:induction false} CandidatesOfSnapshot(q: seq<Entry>, now: nat, nowUnix: u64, ttl: nat)
    requires NoneAfter(q, now)
    ensures Candidates(Snapshot(q, now, nowUnix, ttl), now, nowUnix, ttl) == ReloadedAll(q, now, nowUnix, ttl)
  {
    if q == [] {
    } else {
      CandidatesOfSnapshot(q[1..], now, nowUnix, ttl);
      var rs := Snapshot(q, now, nowUnix, ttl);
      if Expired(q[0], now, ttl) {
        assert rs == Snapshot(q[1..], now, nowUnix, ttl);
      } else {
        assert rs[1..] == Snapshot(q[1..], now, nowUnix, ttl);
        assert Live(rs[0], nowUnix, ttl) by {
          assert (now - q[0].ts) / SECOND * SECOND <= now - q[0].ts;
        }
      }
    }
  }

  lemma {:induction false} LiveEntriesSpec(q: seq<Entry>, now: nat, ttl: nat)
    ensures forall e :: e in LiveEntries(q, now, ttl) <==> e in q && !Expired(e, now, ttl)
  {
    if q == [] {
    } else {
      LiveEntriesSpec(q[1..], now, ttl);
      assert q == [q[0]] + q[1..];
    }
  }

  lemma {:induction false} ReloadedAllMatches(q: seq<Entry>, now: nat, nowUnix: u64, ttl: nat)
    ensures var r, live := ReloadedAll(q, now, nowUnix, ttl), LiveEntries(q, now, ttl);
            |r| == |live| && forall i :: 0 <= i < |r| ==> r[i] == Reloaded(live[i], now, nowUnix)
  {
    if q == [] {
    } else {
      ReloadedAllMatches(q[1..], now, nowUnix, ttl);
      var r, live := ReloadedAll(q[1..], now, nowUnix, ttl), LiveEntries(q[1..], now, ttl);
      if !Expired(q[0], now, ttl) {
        assert ReloadedAll(q, now, nowUnix, ttl) == [Reloaded(q[0], now, nowUnix)] + r;
        assert LiveEntries(q, now, ttl) == [q[0]] + live;
      }
    }
  }

  lemma PrependKeepsOrder(e: Entry, s: seq<Entry>)
    requires TimeOrdered(s) && DistinctKeys(s)
    requires forall i :: 0 <= i < |s| ==> e.ts <= s[i].ts && e.key != s[i].key
    ensures TimeOrdered([e] + s) && DistinctKeys([e] + s)
  {
  }

  lemma {:induction false} LiveEntriesKeepOrder(q: seq<Entry>, now: nat, ttl: nat)
    requires TimeOrdered(q) && DistinctKeys(q)
    ensures TimeOrdered(LiveEntries(q, now, ttl)) && DistinctKeys(LiveEntries(q, now, ttl))
  {
    if q == [] {
    } else {
      var rest := LiveEntries(q[1..], now, ttl);
      LiveEntriesKeepOrder(q[1..], now, ttl);
      LiveEntriesSpec(q[1..], now, ttl);
      forall i | 0 <= i < |rest| ensures q[0].ts <= rest[i].ts && q[0].key != rest[i].key {
        assert rest[i] in rest;
      }
      PrependKeepsOrder(q[0], rest);
    }
  }

  lemma {:induction false} FirstOfDistinct(s: seq<Entry>, seen: set<Key>)
    requires DistinctKeys(s) && (forall e :: e in s ==> e.key !in seen)
    ensures FirstOfEach(s, seen) == s
  {
    if s == [] {
    } else {
      assert s == [s[0]] + s[1..];
      forall e | e in s[1..] ensures e.key !in seen + {s[0].key} {
        assert e in s;
        var i :| 0 <= i < |s[1..]| && s[1..][i] == e;
        assert s[i + 1] == e;
      }
      FirstOfDistinct(s[1..], seen + {s[0].key});
    }
  }

  lemma ReloadedAllOrdered(q: seq<Entry>, now: nat, nowUnix: u64, ttl: nat)
    requires WellFormed(q, now, |q|)
    ensures TimeOrdered(ReloadedAll(q, now, nowUnix, ttl)) && DistinctKeys(ReloadedAll(q, now, nowUnix, ttl))
    ensures NoneAfter(LiveEntries(q, now, ttl), now)
  {
    var r, live := ReloadedAll(q, now, nowUnix, ttl), LiveEntries(q, now, ttl);
    ReloadedAllMatches(q, now, nowUnix, ttl);
    LiveEntriesKeepOrder(q, now, ttl);
    LiveEntriesSpec(q, now, ttl);
    assert forall i :: 0 <= i < |live| ==> live[i] in live;
    forall i, j | 0 <= i < j < |r| ensures r[i].ts <= r[j].ts {
      ReloadedOrder(live[i], live[j], now, nowUnix);
    }
  }

  /** Into an empty cache with room, candidates that are in order and distinct go as they are. */
  lemma AdoptedAsIs(rs: seq<Record>, now: nat, nowUnix: u64, ttl: nat, maxSize: nat)
    requires var c := Candidates(rs, now, nowUnix, ttl); TimeOrdered(c) && DistinctKeys(c) && |c| <= maxSize
    ensures Adopted([], rs, now, nowUnix, ttl, maxSize) == Candidates(rs, now, nowUnix, ttl)
  {
    var c := Candidates(rs, now, nowUnix, ttl);
    SortOfOrdered(c);
    FirstOfDistinct(c, Keys([]));
  }

  /**
   Saving a time-ordered cache and loading it into an empty one of the same lifetime, with
   room for the live entries and at the same clock readings, brings back exactly the live
   γ values in the same order, each at most one second younger and never older.
   */
  lemma SaveThenLoad(q: seq<Entry>, now: nat, nowUnix: u64, ttl: nat, maxSize: nat)
    requires WellFormed(q, now, |q|) && |LiveEntries(q, now, ttl)| <= maxSize
    ensures ParseFile(EncodeFile(Snapshot(q, now, nowUnix, ttl))) == Accepted(Snapshot(q, now, nowUnix, ttl))
    ensures var live := LiveEntries(q, now, ttl);
            var back := Adopted([], Snapshot(q, now, nowUnix, ttl), now, nowUnix, ttl, maxSize);
            && |back| == |live|
            && forall i :: 0 <= i < |live| ==>
                 && back[i].key == live[i].key && live[i].ts <= back[i].ts
                 && ((now - live[i].ts) / SECOND <= nowUnix ==> back[i].ts < live[i].ts + SECOND)
  {
    var rs, live := Snapshot(q, now, nowUnix, ttl), LiveEntries(q, now, ttl);
    ParseOfEncode(rs);
    CandidatesOfSnapshot(q, now, nowUnix, ttl);
    ReloadedAllMatches(q, now, nowUnix, ttl);
    ReloadedAllOrdered(q, now, nowUnix, ttl);
    AdoptedAsIs(rs, now, nowUnix, ttl, maxSize);
    forall i | 0 <= i < |live| ensures live[i].ts <= Reloaded(live[i], now, nowUnix).ts
                                       && ((now - live[i].ts) / SECOND <= nowUnix
                                           ==> Reloaded(live[i], now, nowUnix).ts < live[i].ts + SECOND)
    {
      ReloadedInstant(live[i], now, nowUnix);
    }
  }

  lemma {:induction false} SnapshotOfLive(q: seq<Entry>, now: nat, nowUnix: u64, ttl: nat)
    ensures forall r :: r in Snapshot(q, now, nowUnix, ttl) ==>
        Live(r, nowUnix, ttl) && r.key in Keys(LiveEntries(q, now, ttl))
    ensures forall e :: e in LiveEntries(q, now, ttl) ==>
        exists r :: r in Snapshot(q, now, nowUnix, ttl) && r.key == e.key
  {
    if q == [] {
    } else {
      SnapshotOfLive(q[1..], now, nowUnix, ttl);
      var rs, live := Snapshot(q, now, nowUnix, ttl), LiveEntries(q, now, ttl);
      if Expired(q[0], now, ttl) {
        assert rs == Snapshot(q[1..], now, nowUnix, ttl);
      } else {
        assert rs == [rs[0]] + Snapshot(q[1..], now, nowUnix, ttl);
        assert live == [q[0]] + LiveEntries(q[1..], now, ttl);
        assert Live(rs[0], nowUnix, ttl) by {
          assert Monus(now, q[0].ts) / SECOND * SECOND <= Monus(now, q[0].ts);
        }
        assert rs[0] in rs && q[0] in live;
      }
    }
  }

  lemma FullSubset(a: set<Key>, b: set<Key>)
    requires a <= b && |a| == |b|
    ensures a == b
  {
    assert b * a == a;
    assert |b - a| == 0;
  }

  /** Whatever the order of the queue, with room the same live γ values come back. */
  lemma SaveThenLoadKeys(q: seq<Entry>, now: nat, nowUnix: u64, ttl: nat, maxSize: nat)
    requires |Keys(LiveEntries(q, now, ttl))| <= maxSize
    ensures var back := Adopted([], Snapshot(q, now, nowUnix, ttl), now, nowUnix, ttl, maxSize);
            DistinctKeys(back) && Keys(back) == Keys(LiveEntries(q, now, ttl))
  {
    var rs, live := Snapshot(q, now, nowUnix, ttl), LiveEntries(q, now, ttl);
    var back := Adopted([], rs, now, nowUnix, ttl, maxSize);
    SnapshotOfLive(q, now, nowUnix, ttl);
    assert NewKeys([], rs, nowUnix, ttl) == Keys(live);
    RestoreKeepsTheNewest([], rs, now, nowUnix, ttl, maxSize);
    DistinctCount(back);
    FullSubset(Keys(back), Keys(live));
  }

  lemma OneRecordAdopted(r: Record, now: nat, nowUnix: u64, ttl: nat, maxSize: nat)
    requires Live(r, nowUnix, ttl) && maxSize >= 1
    ensures Adopted([], [r], now, nowUnix, ttl, maxSize) == [Revive(r, now, nowUnix)]
  {
    var e := Revive(r, now, nowUnix);
    assert Candidates([r], now, nowUnix, ttl) == [e] + Candidates([r][1..], now, nowUnix, ttl) == [e];
    assert SortByTs([e]) == InsertByTs(e, SortByTs([e][1..])) == [e];
    assert FirstOfEach([e], {}) == [e] + FirstOfEach([e][1..], {} + {e.key}) == [e];
    assert Keys([]) == {};
  }

  /** A queue of one entry refuses its key exactly as long as that is live. */
  lemma OneIsRefused(q: seq<Entry>, now: nat, ttl: nat, maxSize: nat)
    requires |q| == 1
    ensures CheckAndInsert(q, q[0].key, now, ttl, maxSize).check == Replay <==> !Expired(q[0], now, ttl)
  {
    var live := Sweep(q, now, ttl);
    assert live != [] ==> live[0] == q[0];
  }

  /**
   One record, loaded into an empty cache: its γ is refused exactly until its lifetime is over,
   counted from the second in the file, or from now if that is before the clock's origin.
   */
  lemma LoadedIsRefused(r: Record, now: nat, nowUnix: u64, later: nat, ttl: nat, maxSize: nat)
    requires now <= later && Live(r, nowUnix, ttl) && maxSize >= 1
    ensures var age := Monus(nowUnix, r.unix) * 1_000_000_000;
            CheckAndInsert(Adopted([], [r], now, nowUnix, ttl, maxSize), r.key, later, ttl, maxSize).check == Replay
            <==> later - now + (if age <= now then age else 0) <= ttl
  {
    OneRecordAdopted(r, now, nowUnix, ttl, maxSize);
    OneIsRefused(Adopted([], [r], now, nowUnix, ttl, maxSize), later, ttl, maxSize);
  }
}
