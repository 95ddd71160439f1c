# Verified model of the Gotham relay

A Dafny model of the relay crate `crypto-gotham-relay` and proofs about it. It covers the five
state machines on which the relay's guarantees rest, and the journey of a packet through them:

- **Replay cache** (`ReplayQueue`, `ReplayRestore`, `ReplayFile`, `Replay`, `ReplayRestarts`,
  `ReplayLives`, `ReplayHistory`). The cache is a hash map and a FIFO queue of γ values, swept by age, bounded by capacity, saved
  to a file in whole seconds of the wall clock and restored under another process clock. It is
  shown to answer like an unbounded log, to survive any sequence of restarts with a bounded
  drift, to accept a γ again over several lives only for stated reasons, and to have a file
  format whose reader and writer undo each other.
- **Rate limits** (`RateLimit`, `RateQuota`, `RollingQuota`, `PerSource`). The lazily refilled token bucket, the
  daily byte quota and the bounded table of limiters per source, with bounds for every run.
- **Noise framing** (`NoiseFraming`, `NoiseStreams`). Length-prefixed messages, chunked blobs and
  fixed-size frames under an implicit message counter (section 5.1 of the Noise Protocol
  Framework, revision 34), with the 65535-byte message limit of its section 3.
- **Connection pool** (`PoolModel`, `PoolSafety`, `PoolWire`, `PoolStory`, `PoolReuse`, `PoolProgress`).
  Any number of concurrent `send` calls as interleaved steps over four kinds of lock: what is safe in
  every interleaving, what reaches the peers, which connection each call uses and why the pool changes.
- **Relay and sender** (`RelayModel`, `RelayRuns`, `RelayLegacy`, `RelayLives`, `RelayErasure`,
  `SenderModel`, `Travels`, `Delivery`). The packet pipeline over limiter and cache, also across restarts, the sender's layered packet,
  and delivery from end to end.

`Prelude` holds integers of fixed width, byte strings and big-endian numbers; `Runs` holds
induction over the runs of any system that takes one event at a time.

Objects that the program updates in place are classes whose methods are proved equal to a
function on values (`Replay.ReplayCache`, `RateLimit.RateLimiter`, `PerSource.PerSourceLimiter`,
`NoiseStreams.NoiseWriter`, `NoiseStreams.NoiseReader`, `RelayModel.Relay`, and the packet buffer
in `SenderModel`); the theorems are about those functions, over all runs. The pool is a
transition system, since its point is what happens between the steps of one call.

Conventions. Instants are nanoseconds since the earliest instant that the process clock can
represent, so that `checked_sub` fails exactly when the result would be negative. Clock
readings, sampled delays, randomness, the mailbox frame limit and the network's behaviour
(including how many bytes a stream takes before it breaks) are parameters. The 16-byte γ
is the number it spells. The header length of 384 bytes is that of the packet description in
`README.md:85`; the crate that defines it is not part of this model. Cryptography is a record of
functions with stated laws: a cipher opens what it sealed and adds 16 bytes (`NoiseFraming.Lawful`), the wide-block cipher keeps lengths
and is undone (`RelayModel.LawfulSphinx`), unwrapping a wrapped header at hop i gives record i and
the header for hop i + 1 (`Delivery.LawfulWrapping`), and unsealing gives back what was sealed
(`Delivery.LawfulSealing`). No other property of them is used.

Where the code and its documentation differ, the model follows the code. The option help
describes the byte quota as rolling (`crypto-gotham-relay/src/main.rs:155`), while the code keeps a
fixed window that restarts with the first packet let through 24 hours or more after its last
start. `RateQuota.QuotaBound` gives the bound that holds of every run.

Four plausible properties are false of the code, and each is proved to hold exactly under a
condition on the configuration or the path:

- Every interval of 24 hours carries at most the budget. This holds if and only if the limiter is too
  small for a single packet or its rate alone keeps a day within the budget
  (`RollingQuota.RollingExactly`); the bound of twice the budget is reached
  (`RollingQuota.TwiceTheBudgetHappens`).
- A packet that comes one packet's worth of refill after the last one is not refused for its rate.
  This holds if and only if there is no rate, or it is at least half a packet a second, or the quota
  refuses every packet before the rate is looked at (`RateLimit.WaitingSufficesExactly`).
- Erasing forged packets from a run is invisible. The limiter is asked before the MAC is checked,
  so a forged packet spends a token (`RelayErasure.ForgeriesSpendTokens`). It holds if and only if
  the limiter refuses nothing or lets nothing through
  (`RelayErasure.ForgeriesInvisibleExactly`).
- A packet that every relay on its path welcomes is delivered. It is, if and only if no hop of the
  path is followed by itself (`Delivery.Journey`).

## Model

| member | source | states |
|---|---|---|
| ReplayQueue.QueueRefinesLog | crypto-gotham-relay/src/replay.rs:31-56 | Over every chronological run the cache answers Replay exactly when γ is among the last max(max_size, 1) accepted entries and not older than ttl |
| ReplayQueue.CheckRefinesLog | crypto-gotham-relay/src/replay.rs:43-56 | One check gives the log's answer and leaves the queue a faithful tail of the log, forgetting only what is expired or beyond capacity |
| ReplayQueue.CheckKeepsWellFormed | crypto-gotham-relay/src/replay.rs:43-56 | Distinct keys, time order, no entry from the future and a size of at most max(max_size, 1) are kept |
| ReplayQueue.AcceptedTwice | crypto-gotham-relay/src/replay.rs:43-56 | A γ is accepted again only after more than ttl, or after max(max_size, 1) different other γ values newer than its first acceptance |
| Replay.MapOfKeys | crypto-gotham-relay/src/replay.rs:13-18 | The map of a queue holds the queue's keys, and is as large as the queue just if those are distinct |
| Replay.MapOfEntries | crypto-gotham-relay/src/replay.rs:13-18 | The map gives each key of the queue the queue's instant |
| Replay.ReplayCache.constructor | crypto-gotham-relay/src/replay.rs:22-29 | A new cache is empty, with map and queue in agreement |
| Replay.ReplayCache.SweepExpired | crypto-gotham-relay/src/replay.rs:31-41 | Removes from map and queue exactly the expired prefix of the queue |
| Replay.ReplayCache.CheckAndInsertAt | crypto-gotham-relay/src/replay.rs:43-56 | Answer and new queue are those of the value model that refines the log; map and queue agree afterwards, within capacity |
| Replay.ReplayCache.EncodeInto | crypto-gotham-relay/src/replay.rs:75-87 | The buffer is the magic followed by the encoded records of the snapshot |
| Replay.ReplayCache.Revived | crypto-gotham-relay/src/replay.rs:95-102 | Collects the live records as entries of this process, in file order |
| Replay.ReplayCache.Retained | crypto-gotham-relay/src/replay.rs:103-105 | Keeps the first entry of every key that the cache does not hold |
| Replay.ReplayCache.InsertFrom | crypto-gotham-relay/src/replay.rs:108-116 | Inserts every entry behind the skipped ones: the capacity break never fires |
| Replay.ReplayCache.RestoreAt | crypto-gotham-relay/src/replay.rs:89-118 | The queue grows by exactly the adopted entries, what was there stays, and the count is theirs |
| Replay.ReplayCache.Load | crypto-gotham-relay/src/replay.rs:181-213 | A missing file loads nothing, an unreadable or damaged one is refused without touching the cache, a sound one restores its records |
| ReplayRestore.RestoreKeepsTheNewest | crypto-gotham-relay/src/replay.rs:95-117 | Adopts min(room, number of distinct live new keys) keys, each with its oldest live record, in time order, and leaves out only keys no newer than any adopted one |
| ReplayRestore.SortByTsOrders | crypto-gotham-relay/src/replay.rs:103-103 | The sort is an ordered permutation |
| ReplayRestore.SortByTsIsStable | crypto-gotham-relay/src/replay.rs:103-103 | Entries of equal instants keep their order |
| ReplayRestore.FirstOfEachIsEarliest | crypto-gotham-relay/src/replay.rs:104-105 | Of several entries of a key the earliest is kept |
| ReplayFile.ParseOfEncode | crypto-gotham-relay/src/replay.rs:187-211 | Parsing the encoding of any records gives those records |
| ReplayFile.AcceptedIsEncoded | crypto-gotham-relay/src/replay.rs:187-211 | A file is accepted exactly if it is the encoding of some records, and re-encoding what it parses to gives the file back |
| ReplayFile.FileInBytes | crypto-gotham-relay/src/replay.rs:137-175 | The file begins with the eight bytes GTHMRPL1, and record i is γ at 8 + 24·i and its second, big-endian, at 24 + 24·i |
| ReplayFile.RefusedExactly | crypto-gotham-relay/src/replay.rs:187-200 | A file is refused for its magic exactly if it does not begin with those bytes, and as truncated exactly if it does and the rest is no multiple of 24 |
| ReplayFile.LoadedIsRefused | crypto-gotham-relay/src/replay.rs:95-102 | The γ of a record loaded into an empty cache is refused exactly until ttl after the second in the file, or after the load if that second is before the clock's origin |
| ReplayFile.SaveThenLoad | crypto-gotham-relay/src/replay.rs:63-118 | Saving a time-ordered cache and loading it at the same clock readings restores the live keys in order, never older and less than a second younger |
| ReplayFile.SaveThenLoadKeys | crypto-gotham-relay/src/replay.rs:63-118 | Whatever the order of the queue, saving and loading with room restores exactly the live keys, each once |
| ReplayRestarts.OneCycle | crypto-gotham-relay/src/replay.rs:63-118 | One save and load never moves an entry to an earlier second, and by at most one second later if the instant is representable |
| ReplayRestarts.RestartDrift | crypto-gotham-relay/src/replay.rs:63-118 | After r save/load cycles the computed age is less than the true age + 1 s and, if instants stay representable, more than the true age − (r + 1) s |
| ReplayLives.RunKeepsInv | crypto-gotham-relay/src/replay.rs:31-118 | Every run of packets, saves and restarts keeps cache, file and true moments of acceptance in agreement |
| ReplayLives.RefusedAcrossRestarts | crypto-gotham-relay/src/replay.rs:31-118 | In every run a γ restored or accepted in this life is refused until its true age exceeds ttl − 1 s, unless the last max(max_size, 1) entries of this life are different, none of them is that γ, and all came after one of it |
| ReplayLives.RestoredUnlessFull | crypto-gotham-relay/src/replay.rs:89-213 | In every run a restart restores each γ of the file whose true age is at most ttl − 1 s, with its moment of acceptance, unless the restored cache is full of entries no older |
| ReplayHistory.FileKeyRefused | crypto-gotham-relay/src/replay.rs:31-213 | A γ of the file that a restart loads is refused at every later moment of that life until its true age exceeds ttl − 1 s, unless the restart left it out of a cache full of entries no older or others overtook it since |
| ReplayHistory.AcceptedAgain | crypto-gotham-relay/src/replay.rs:31-213 | In every run of packets, saves and restarts a γ is accepted twice only if its true age exceeds ttl − 1 s, or others overtook it in the life of the second acceptance, or an event between lost it: a save after it was overtaken, a restart before any save, or a restart that left it out |
| ReplayHistory.RefusedIsSaved | crypto-gotham-relay/src/replay.rs:63-87 | A γ that the cache refuses is in the snapshot taken at that moment |
| RateLimit.RateLimiter.constructor | crypto-gotham-relay/src/rate_limit.rs:48-60 | A negative rate counts as none; the bucket starts full, with twice the rate |
| RateLimit.RateLimiter.CheckAt | crypto-gotham-relay/src/rate_limit.rs:76-109 | Decision and new fields are those of the value model; a throttled check changes nothing |
| RateLimit.RefillFormula | crypto-gotham-relay/src/rate_limit.rs:91-94 | What drips in nanosecond by nanosecond is the elapsed seconds times the rate, as the code computes it |
| RateLimit.BucketBound | crypto-gotham-relay/src/rate_limit.rs:89-108 | In every run and every interval [s, t] at most 2·max_pps + max_pps·(t − s) packets are let through |
| RateLimit.RefusalIsRecent | crypto-gotham-relay/src/rate_limit.rs:89-98 | For max_pps ≥ 1/2, in every run, a check is refused for its rate only less than 1/max_pps after the last packet let through |
| RateLimit.WaitingSufficesExactly | crypto-gotham-relay/src/rate_limit.rs:79-98 | That holds of every run if and only if there is no rate, or max_pps ≥ 1/2, or the budget is positive but below one packet |
| RateLimit.TooSlowAdmitsNothing | crypto-gotham-relay/src/rate_limit.rs:50-98 | For 0 < max_pps < 1/2 no run ever lets a packet through |
| RateLimit.LazyEqualsEager | crypto-gotham-relay/src/rate_limit.rs:89-103 | Updating the bucket only on Allow decides every run like refilling it at every check |
| RateLimit.ThrottledLeaveNoTrace | crypto-gotham-relay/src/rate_limit.rs:76-109 | Erasing any throttled checks from a run changes no remaining decision |
| RateLimit.OpenRefusesNothing | crypto-gotham-relay/src/rate_limit.rs:76-109 | A limiter without limits, or with only the largest budget, refuses nothing in any run |
| RateQuota.QuotaRefusesExactly | crypto-gotham-relay/src/rate_limit.rs:79-87 | After every run a check is refused by the quota if and only if the packet would take the bytes sent in the current window over the budget |
| RateQuota.WindowsApart | crypto-gotham-relay/src/rate_limit.rs:79-83 | The starts of different quota windows are at least 24 h apart |
| RateQuota.UsedIsExact | crypto-gotham-relay/src/rate_limit.rs:79-107 | The counter is 2064 bytes for each packet let through in the current window, and never above the budget |
| RateQuota.QuotaBound | crypto-gotham-relay/src/rate_limit.rs:79-107 | Any interval of at most 24 h carries at most twice the budget |
| RollingQuota.RollingExactly | crypto-gotham-relay/src/rate_limit.rs:79-107 | A new limiter with a budget keeps every interval of 24 h within the budget if and only if it is too small for a single packet, or its rate alone allows at most the budget: 2064·⌊86402·max_pps⌋ ≤ budget |
| RollingQuota.Drain | crypto-gotham-relay/src/rate_limit.rs:89-103 | Sending whenever there is a token gets out of the bucket all that was in it and all that drips in |
| RollingQuota.TwiceTheBudgetHappens | crypto-gotham-relay/src/rate_limit.rs:79-107 | Without a rate and for every budget of k packets, some run carries exactly twice the budget within two adjacent nanoseconds |
| PerSource.PerSourceLimiter.constructor | crypto-gotham-relay/src/rate_limit.rs:121-128 | An empty table with room for at least one source |
| PerSource.PerSourceLimiter.FindLongestIdle | crypto-gotham-relay/src/rate_limit.rs:141-145 | Finds a source that no other has been idle for longer than |
| PerSource.PerSourceLimiter.MakeRoom | crypto-gotham-relay/src/rate_limit.rs:140-149 | A table with max_entries sources loses a longest-idle one to a new source and nothing else, and a smaller table loses nothing |
| PerSource.PerSourceLimiter.Consult | crypto-gotham-relay/src/rate_limit.rs:155-155 | Asking a source's limiter object changes that limiter as the value model says, and no other |
| PerSource.PerSourceLimiter.CheckAt | crypto-gotham-relay/src/rate_limit.rs:134-156 | Eviction, entry, stamp and check of the source's own limiter object: decision and table are those of the value model, within the bound |
| PerSource.TableIsBounded | crypto-gotham-relay/src/rate_limit.rs:140-156 | In every run the table stays within its bound |
| PerSource.LeavesOnlyWhenFull | crypto-gotham-relay/src/rate_limit.rs:140-149 | A check makes a source leave only if the table holds max_entries sources and the checked one is new; then only that one leaves, and none has been silent for longer |
| PerSource.FewSourcesAreNeverForgotten | crypto-gotham-relay/src/rate_limit.rs:134-156 | In every run of at most max_entries sources none ever leaves the table, each is admitted once, and each is answered like a lone limiter born with its first check |
| PerSource.SourcesAreIsolated | crypto-gotham-relay/src/rate_limit.rs:134-156 | In every interleaving each decision is that of a lone limiter created at the source's latest admission and given only its own checks |
| PerSource.SourceBound | crypto-gotham-relay/src/rate_limit.rs:134-156 | Over every run a source gets at most burst × admissions + max_pps × elapsed packets |
| NoiseFraming.MessageRoundTrip | crypto-gotham-relay/src/transport.rs:612-643 | A message of 1 to 32768 bytes is read back and leaves the rest of the stream |
| NoiseFraming.ReadFailsExactly | crypto-gotham-relay/src/transport.rs:625-643 | A message is refused for its length exactly if it announces less than 17 or more than 32784 bytes; the stream ends exactly if it is shorter than announced; otherwise reading fails only if the message does not open |
| NoiseFraming.BlobLength | crypto-gotham-relay/src/transport.rs:645-659 | A blob takes 22 bytes for its length and 18 bytes more for every 32768 bytes or part of them |
| NoiseFraming.HeaderIsChecked | crypto-gotham-relay/src/transport.rs:673-681 | A header that is not 4 bytes long or announces more than the cap is refused |
| NoiseFraming.ChunkIsChecked | crypto-gotham-relay/src/transport.rs:683-688 | A chunk that brings nothing, or more than the header announced, is refused |
| NoiseFraming.BlobRoundTrip | crypto-gotham-relay/src/transport.rs:645-691 | A blob within the cap is read back, and both ends agree on the next counter |
| NoiseFraming.BlobStreamRoundTrip | crypto-gotham-relay/src/transport.rs:645-691 | Every list of blobs within the caps, written back to back, is read back as the same list |
| NoiseFraming.BlobIsExact | crypto-gotham-relay/src/transport.rs:668-691 | On any stream a returned blob has exactly the length its header declares, within the cap |
| NoiseFraming.CutBlobEnds | crypto-gotham-relay/src/transport.rs:625-691 | A blob whose writer broke off anywhere is never returned in part: the reader finds the end of the stream |
| NoiseFraming.FramesRoundTrip | crypto-gotham-relay/src/transport.rs:578-603 | Whole frames followed by less than a frame are read back as exactly their packets |
| NoiseStreams.NoiseWriter.WriteOne | crypto-gotham-relay/src/transport.rs:612-623 | Puts on the wire as much of one sealed message as the stream takes before it breaks, and fails just if that is not all; the counter advances either way; an oversized message is refused without a trace |
| NoiseStreams.NoiseWriter.WriteChunks | crypto-gotham-relay/src/transport.rs:655-657 | The chunks of a blob under consecutive counters, up to where the stream breaks, and an error just if it breaks before the end |
| NoiseStreams.NoiseWriter.WriteBlob | crypto-gotham-relay/src/transport.rs:645-659 | Header and chunks, up to where the stream breaks, and an error just if it breaks before the end; a blob over the limit is refused before anything is sent |
| NoiseStreams.NoiseReader.ReadOne | crypto-gotham-relay/src/transport.rs:625-643 | Appends one message to the buffer or fails as the value model does; the buffer grows by at most 32784 bytes |
| NoiseStreams.NoiseReader.ReadBlobCapped | crypto-gotham-relay/src/transport.rs:668-691 | On every stream it terminates with what the value model gives, and its buffer never exceeds max_frame + 32783 bytes |
| PoolSafety.StepIsSafe | crypto-gotham-relay/src/pool.rs:33-146 | Every step keeps lock ownership exclusive, entries under their own keys, stamps from going back, scans correct and the size bound |
| PoolSafety.PoolIsSafe | crypto-gotham-relay/src/pool.rs:68-146 | In every interleaving the pool holds at most max_size entries, each a connection opened to exactly its key |
| PoolSafety.EvictsTheLongestIdle | crypto-gotham-relay/src/pool.rs:114-128 | Although stamps move on while it is scanning, a scan ends with the choice of an entry whose stamp as read is no newer than any entry's stamp now (`PoolStory.PoolChangesAreExplained` says that this entry alone is removed) |
| PoolStory.CallIsExplained | crypto-gotham-relay/src/pool.rs:81-112 | In every interleaving a call opens a connection only if it found none in the pool or its write on that one failed; a call that returns Ok sent its last byte on the one it found, or else on the one it opened, whose stamp is no older than that; a call that fails was refused a connection or failed on the new one |
| PoolStory.PoolChangesAreExplained | crypto-gotham-relay/src/pool.rs:89-128 | In every interleaving a step leaves the pool alone, drops the entry of the call's peer after the write on the pooled connection failed, or puts in the connection that the call opened and sent on, replacing, just if the pool is full, one entry whose stamp as read was no newer than any other's; a call that opened a connection and returns Ok leaves it in the pool |
| PoolReuse.OneConnectionPerPeer | crypto-gotham-relay/src/pool.rs:81-112 | If nothing fails, calls to one peer do not overlap and the pool has room for every peer, then in every interleaving each peer has one connection and recovers from it the packets of all calls to it, in the order in which they went out |
| PoolReuse.CalmCallsSucceed | crypto-gotham-relay/src/pool.rs:81-112 | Under the same conditions every call that is over returned Ok, and the connection to its peer carries it |
| PoolWire.WireOrder | crypto-gotham-relay/src/pool.rs:33-39 | In every interleaving the peer recovers, from the bytes before the first failed write, exactly the packets written whole, in counter order |
| PoolWire.WrittenExactlyOnce | crypto-gotham-relay/src/pool.rs:81-112 | A call that returns Ok has written exactly one whole frame, to a connection opened to its peer; a call that fails has written none |
| PoolWire.ReadOnceExactly | crypto-gotham-relay/src/pool.rs:33-39 | Once a call is over, the peer recovers its packet from a connection, exactly once, if and only if the frame was written there before any write failed |
| PoolWire.OkReachesPeer | crypto-gotham-relay/src/pool.rs:81-112 | A call that returned Ok is carried by one connection, opened to its peer, and unless a write on it failed the peer recovers the packet exactly once |
| PoolProgress.LocksAreRanked | crypto-gotham-relay/src/pool.rs:33-128 | A call waits only for a lock ranked above all those it holds: pool or noise, then send, then last_used |
| PoolProgress.DeadlockFree | crypto-gotham-relay/src/pool.rs:33-128 | In every reachable state with an unfinished call some call can step |
| PoolProgress.EveryRunEnds | crypto-gotham-relay/src/pool.rs:81-128 | Runs of n calls have at most n times a constant number of steps, and one that cannot go on has finished every call |
| RelayModel.Relay.constructor | crypto-gotham-relay/src/process.rs:68-83 | An empty cache, a fresh limiter and no legacy headers counted |
| RelayModel.Relay.VerifyPacket | crypto-gotham-relay/src/process.rs:156-196 | Decodes and authenticates a packet, counting accepted legacy headers and nothing else |
| RelayModel.Relay.NextPacket | crypto-gotham-relay/src/process.rs:220-223 | The buffer holds the next header and then the decrypted payload |
| RelayModel.Relay.RoutePacket | crypto-gotham-relay/src/process.rs:203-244 | Delivers at the last hop, refuses a hop to itself, and otherwise forwards with the capped delay |
| RelayModel.Relay.SettlePacket | crypto-gotham-relay/src/process.rs:198-201 | An authentic packet is dropped if its γ is known, and otherwise recorded and routed |
| RelayModel.Relay.ProcessPacket | crypto-gotham-relay/src/process.rs:142-245 | Outcome and new state of limiter, cache and counter are those of the value model |
| RelayErasure.ForgeriesLeaveNoTrace | crypto-gotham-relay/src/process.rs:142-201 | With a limiter that refuses nothing (the unlimited one in particular), erasing from any run any packets dropped as Malformed or BadMac leaves all other outcomes and the cache unchanged |
| RelayErasure.ForgeriesInvisibleExactly | crypto-gotham-relay/src/process.rs:142-201 | With a new limiter, and if a forged packet of the right size exists, forgeries can be erased from every run if and only if the limiter's configuration refuses nothing or is too small for a single packet |
| RelayErasure.RefusesAtLast | crypto-gotham-relay/src/rate_limit.rs:76-109 | Any other new limiter lets at least one packet through at one instant and then refuses |
| RelayErasure.ForgeriesSpendTokens | crypto-gotham-relay/src/process.rs:151-154 | At one packet in two seconds a forged packet costs the next packet its admission |
| RelayErasure.ShedLeaveNoTrace | crypto-gotham-relay/src/process.rs:147-154 | With any limiter, packets of the wrong size and rate-limited ones can be erased without changing other outcomes or the cache |
| RelayRuns.ProcessLogs | crypto-gotham-relay/src/process.rs:186-201 | A packet changes the cache as one check of the log does, if it is authentic and admitted, and otherwise not at all |
| RelayRuns.DroppedExactly | crypto-gotham-relay/src/process.rs:147-234 | For each drop reason, exactly when a packet is dropped for it |
| RelayRuns.PassedIsHeld | crypto-gotham-relay/src/process.rs:203-207 | A packet that passes is held for exactly the sampled delay if its record has none, and otherwise for the record's delay but at most 30 s |
| RelayLegacy.StrictRefusesLegacy | crypto-gotham-relay/src/process.rs:165-169 | In strict mode no packet with a legacy header passes in any run, and none changes the cache or the counter |
| RelayLegacy.VersionIsIgnored | crypto-gotham-relay/src/process.rs:165-245 | A relay that accepts legacy headers does the same to every packet whatever version counts as legacy |
| RelayLegacy.CounterCounts | crypto-gotham-relay/src/process.rs:165-170 | In every run the counter is the number of legacy headers let in, up to the largest 64-bit number |
| RelayRuns.OncePerGamma | crypto-gotham-relay/src/process.rs:186-201 | From any cache in good order and in every run, two packets of one γ both pass only more than ttl apart, or after max(max_size, 1) different other γ values were recorded in between |
| RelayRuns.HeldGammaPasses | crypto-gotham-relay/src/process.rs:186-201 | The same for a γ that the cache held at the start, as after a restore |
| RelayRuns.RestoredStarts | crypto-gotham-relay/src/process.rs:86-98 | A relay that has loaded a snapshot, or found none, starts with a cache in good order |
| RelayLives.ArriveIsSeen | crypto-gotham-relay/src/process.rs:142-201 | A packet through the whole pipeline changes cache and acceptances as the cache's own check of its γ does, or not at all |
| RelayLives.WorldsAgree | crypto-gotham-relay/src/process.rs:86-201 | Every run of the relay over several lives is, as its cache sees it, a run of the cache over those lives |
| RelayLives.OncePerGammaAcrossLives | crypto-gotham-relay/src/process.rs:86-201 | In every run of packets, saves and restarts two packets of one γ both pass only if the first is in truth older than ttl − 1 s, or others overtook it in the life of the second, or a save, an unsaved restart or a restart into a full cache lost it |
| SenderModel.SenderDelay | crypto-gotham-relay/src/client.rs:22-25 | The sampled delay, but at least 1 µs and at most the largest 32-bit number |
| SenderModel.CollectKeys | crypto-gotham-relay/src/client.rs:125-130 | All hop keys in order, or nothing if one is malformed |
| SenderModel.BuildRecords | crypto-gotham-relay/src/client.rs:134-159 | One record per hop: the next hop's key and address or the rendezvous flag, the last-hop flag at the end, and the delay; or an error if a next hop has no address |
| SenderModel.EncryptLayers | crypto-gotham-relay/src/client.rs:170-172 | The in-place reverse loop leaves the header alone and puts the first hop's layer outermost |
| SenderModel.BuildPacket | crypto-gotham-relay/src/client.rs:166-172 | Header, then the zero-padded payload under all layers |
| SenderModel.ShipPath | crypto-gotham-relay/src/client.rs:119-196 | The packet and its first receiver, or the first of the sender's errors in program order |
| SenderModel.ShipsExactly | crypto-gotham-relay/src/client.rs:125-181 | A packet is shipped exactly if every key parses, the secrets derive, every later hop has an address or is a rendezvous, the header wraps and the entry's socket parses; it goes to the entry's socket and key, and which error comes otherwise |
| SenderModel.FramesExactly | crypto-gotham-relay/src/client.rs:217-225 | Framing fails exactly if sealing does or the envelope has more than 1660 bytes; otherwise the exit finds the envelope in the frame whatever follows it |
| SenderModel.SendsExactly | crypto-gotham-relay/src/client.rs:198-226 | A message goes out exactly if it can be sealed into at most 1660 bytes and its path can be shipped over; which error comes otherwise |
| SenderModel.UnframeOfFrame | crypto-gotham-relay/src/client.rs:217-225 | A framed envelope is found again whatever follows it |
| SenderModel.UnframedIsFramed | crypto-gotham-relay/src/transport.rs:30-44 | Whatever the exit takes for an envelope stands framed at the front of the payload |
| Delivery.HopIsPlanned | crypto-gotham-relay/src/process.rs:142-245 | A relay that accepts its header's version, admits a well-wrapped packet and does not know its γ takes off its layer and passes on the packet for the next hop |
| Delivery.Journey | crypto-gotham-relay/src/process.rs:209-244 | A welcomed packet visits the hops in path order and is delivered exactly if no hop is followed by itself; otherwise the first such hop drops it as PolicyDenied |
| Delivery.HospitableIsReady | crypto-gotham-relay/src/process.rs:151-201 | Relays that accept the header's version, whose caches lack the packet's γ values and whose limiters admit it are ready for it, legacy header or not; at a relay that the path visits again, the limiter has to admit the visits one after the other |
| Delivery.ShippedIsWellWrapped | crypto-gotham-relay/src/client.rs:125-172 | Whenever shipping is possible, what the sender ships goes to the first hop's socket and is a packet whose hops find their own records, keys and next headers |
| Delivery.ShipmentArrives | crypto-gotham-relay/src/client.rs:125-172 | A shipped packet visits the path in order at constant packet size, held for the sender's delay but at most 30 s, and its padded payload is delivered, exactly if no hop is followed by itself |
| Delivery.SealedMessageArrives | crypto-gotham-relay/src/client.rs:119-226 | A message whose envelope has at most 1660 bytes, sent over a path that can be shipped over and has no adjacent repeats, is dialled to the first hop's socket and, through a network whose relays accept its version, lack its γ values and have the limits to admit it, visits the path in order and reaches the exit handler, which hands on exactly the sender and the body despite the padding |
| Delivery.FreshRelaysDeliver | crypto-gotham-relay/src/client.rs:119-226 | The same over any path of different relays that accept the version, with empty caches and limiters that admit a packet at that moment, whatever the γ values are |

## Left out

- RelayModel.Relay.RoutePacket: whether the relay's own delay (for a record without one) follows its distribution is not stated; the sampled delay is a parameter.
- RateLimit.BucketBound: token counts are real numbers, so the rounding of 64-bit floating point and rates that are not numbers are not modelled.
- PoolWire.WireOrder: says nothing about bytes after the first failed write on a connection, where the source promises nothing.
- ReplayLives.RefusedAcrossRestarts: wall clock and process clock advance together; clock adjustments between restarts are not modelled.
- RelayLives.OncePerGammaAcrossLives: every restart reads the file of the last save; a file that is damaged or unreadable, with which the relay starts empty, is not among the events (`Replay.ReplayCache.Load` covers that case).
- Cancellation of a `send` call at a waiting point (timeouts) and the exhaustion of the 64-bit message counter.
- Header, payload and envelope cryptography, beyond the laws stated above, and all claims about secrecy or anonymity.
- Path selection, entry guards and the hop-count and payload-size checks in front of `ship_path`, whose result is taken as given.
- Sampling of Poisson delays and cover traffic.
- QUIC and TLS endpoints, Noise handshakes, protocol dispatch, timeouts and the connection semaphore.
- Mailbox requests, single-use reply blocks, rosters, the rendezvous table and gossip.
- Permissions, `fsync` and renaming when the snapshot is written; a saved file is the encoded snapshot.
- Enrolment, command line, logging, installers and service units.
