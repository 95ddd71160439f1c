/**
 What reaches the streams, in every interleaving: whole frames in the order of their message
 counters, each read back by the peer, and exactly one of them for each call that succeeds.
 */
module PoolWire {
  import opened Prelude
  import opened NoiseFraming
  import opened PoolModel
  import opened PoolSafety

  function Packets(tasks: seq<Task>, ids: seq<nat>): seq<Bytes> {
    seq(|ids|, i requires 0 <= i < |ids| => if ids[i] < |tasks| then tasks[ids[i]].packet else [])
  }

  function FramesOf(cfg: Config, tasks: seq<Task>, c: nat, ids: seq<nat>): Bytes {
    Frames(cfg.cipher(c), 0, Packets(tasks, ids))
  }

  /** The calls in `ids` carry packets of the right size for the peer of the connection. */
  ghost predicate Addressed(tasks: seq<Task>, key: PoolKey, ids: seq<nat>) {
    forall i :: 0 <= i < |ids| ==>
      ids[i] < |tasks| && tasks[ids[i]].key == key && |tasks[ids[i]].packet| == PACKET_SIZE
  }

  /** Up to the first failure a stream holds the frames of `good`, and less than one frame more. */
  ghost predicate StreamOk(cfg: Config, tasks: seq<Task>, c: nat, conn: Conn) {
    var frames := FramesOf(cfg, tasks, c, conn.good);
    && Addressed(tasks, conn.key, conn.good) && Addressed(tasks, conn.key, conn.late)
    && frames <= conn.before && |conn.before| < |frames| + FRAME_LEN
    && (!conn.broken ==> conn.late == [])
  }

  predicate WritesTo(pc: Pc, c: nat) {
    pc.Writing? && pc.c == c
  }

  ghost predicate Idle(tasks: seq<Task>, c: nat) {
    forall t :: 0 <= t < |tasks| ==> !WritesTo(tasks[t].pc, c)
  }

  /** Between frames: nothing but whole frames, and the counter is their number. */
  ghost predicate AtBoundary(cfg: Config, tasks: seq<Task>, c: nat, conn: Conn) {
    conn.before == FramesOf(cfg, tasks, c, conn.good) && conn.nonce == |conn.good|
  }

  /** Within a frame: what is sent and what is left make up the next frame in order. */
  ghost predicate MidFrame(cfg: Config, tasks: seq<Task>, c: nat, conn: Conn, packet: Bytes, left: Bytes) {
    && conn.before + left == FramesOf(cfg, tasks, c, conn.good) + cfg.cipher(c).seal(|conn.good|, packet)
    && conn.nonce == |conn.good| + 1
  }

  ghost predicate WriterOk(cfg: Config, s: State, t: nat)
    requires t < |s.tasks|
  {
    var task := s.tasks[t];
    task.pc.Writing? && task.pc.c < |s.conns| ==>
      && |task.packet| == PACKET_SIZE
      && (!s.conns[task.pc.c].broken ==>
            MidFrame(cfg, s.tasks, task.pc.c, s.conns[task.pc.c], task.packet, task.pc.left))
  }

  ghost predicate WireInv(s: State, cfg: Config) {
    && (forall c :: 0 <= c < |s.conns| ==> StreamOk(cfg, s.tasks, c, s.conns[c]))
    && (forall c :: 0 <= c < |s.conns| && !s.conns[c].broken && Idle(s.tasks, c)
                    ==> AtBoundary(cfg, s.tasks, c, s.conns[c]))
    && (forall t :: 0 <= t < |s.tasks| ==> WriterOk(cfg, s, t))
  }

  // ---------------------------------------------------- steps leave most alone

  /** Calls never change what they send or to whom. */
  ghost predicate SameCalls(a: seq<Task>, b: seq<Task>) {
    |a| == |b| && forall t :: 0 <= t < |a| ==> a[t].key == b[t].key && a[t].packet == b[t].packet
  }

  lemma SameFrames(cfg: Config, a: seq<Task>, b: seq<Task>, c: nat, ids: seq<nat>)
    requires SameCalls(a, b)
    ensures FramesOf(cfg, a, c, ids) == FramesOf(cfg, b, c, ids)
  {
    assert Packets(a, ids) == Packets(b, ids);
  }

  /** The parts of a connection that matter to its stream. */
  ghost predicate SameStream(a: Conn, b: Conn) {
    && a.key == b.key && a.nonce == b.nonce && a.before == b.before && a.broken == b.broken
    && a.good == b.good && a.late == b.late
  }

  /** A step touches at most the stream of the connection its task works on. */
  lemma StreamsUntouched(s: State, step: Step, cfg: Config, c: nat)
    requires Typed(s) && Enabled(s, step) && c < |s.conns|
    requires var pc := s.tasks[step.task].pc; !((pc.Sealing? || pc.Writing?) && pc.c == c)
    ensures SameStream(s.conns[c], EffectOf(s, step, cfg).conns[c])
  {
  }

  lemma CallsKept(s: State, step: Step, cfg: Config)
    requires Typed(s) && Enabled(s, step)
    ensures SameCalls(s.tasks, Next(s, step, cfg).tasks)
  {
  }

  /** Nobody else writes to a connection whose session lock a call holds. */
  lemma SoleWriter(s: State, t: nat, c: nat, u: nat)
    requires LockInv(s) && t < |s.tasks| && u < |s.tasks| && u != t
    requires NoiseLock(c) in Held(s.tasks[t].pc)
    ensures !WritesTo(s.tasks[u].pc, c)
  {
    if WritesTo(s.tasks[u].pc, c) {
      Alone(s, t, u, NoiseLock(c));
    }
  }

  // -------------------------------------------------------------- the writer

  /** Sealing begins the next frame at a boundary. */
  lemma SealStarts(cfg: Config, tasks: seq<Task>, c: nat, conn: Conn, packet: Bytes)
    requires AtBoundary(cfg, tasks, c, conn)
    ensures MidFrame(cfg, tasks, c, conn.(nonce := conn.nonce + 1), packet, cfg.cipher(c).seal(conn.nonce, packet))
  {
  }

  lemma TransmitContinues(cfg: Config, tasks: seq<Task>, c: nat, conn: Conn, packet: Bytes, left: Bytes, n: nat)
    requires Proper(cfg) && MidFrame(cfg, tasks, c, conn, packet, left) && !conn.broken
    requires StreamOk(cfg, tasks, c, conn) && 1 <= n < |left| && |packet| == PACKET_SIZE
    ensures MidFrame(cfg, tasks, c, Append(conn, left[..n]), packet, left[n..])
    ensures StreamOk(cfg, tasks, c, Append(conn, left[..n]))
  {
    SealedIsWhole(cfg, c, |conn.good|, packet);
    assert conn.before + left[..n] + left[n..] == conn.before + left;
  }

  lemma TransmitCompletes(cfg: Config, tasks: seq<Task>, c: nat, conn: Conn, t: nat, left: Bytes)
    requires t < |tasks| && MidFrame(cfg, tasks, c, conn, tasks[t].packet, left) && !conn.broken
    requires StreamOk(cfg, tasks, c, conn) && |tasks[t].packet| == PACKET_SIZE && tasks[t].key == conn.key
    ensures AtBoundary(cfg, tasks, c, Log(Append(conn, left), t))
    ensures StreamOk(cfg, tasks, c, Log(Append(conn, left), t))
  {
    var packets := Packets(tasks, conn.good);
    assert Packets(tasks, conn.good + [t]) == packets + [tasks[t].packet];
    FramesAppend(cfg.cipher(c), 0, packets, tasks[t].packet);
  }

  // ------------------------------------------------------------ preservation

  lemma StreamOkTransfers(cfg: Config, a: seq<Task>, b: seq<Task>, c: nat, x: Conn, y: Conn)
    requires SameCalls(a, b) && StreamOk(cfg, a, c, x)
    requires x.key == y.key && x.before == y.before && x.good == y.good && x.late == y.late && (x.broken ==> y.broken)
    ensures StreamOk(cfg, b, c, y)
  {
    SameFrames(cfg, a, b, c, x.good);
  }

  lemma NewStreamIsOk(cfg: Config, tasks: seq<Task>, c: nat, key: PoolKey, now: nat)
    ensures var conn := Conn(key, 0, [], [], false, [], [], now);
            StreamOk(cfg, tasks, c, conn) && AtBoundary(cfg, tasks, c, conn)
  {
    assert Packets(tasks, []) == [];
  }

  /** A connection that a step adds has nothing on its stream yet. */
  lemma OpenedStream(s: State, step: Step, cfg: Config, c: nat)
    requires Typed(s) && Enabled(s, step) && |s.conns| <= c < |EffectOf(s, step, cfg).conns|
    ensures var tasks, conn := Next(s, step, cfg).tasks, EffectOf(s, step, cfg).conns[c];
            StreamOk(cfg, tasks, c, conn) && AtBoundary(cfg, tasks, c, conn)
  {
    NewStreamIsOk(cfg, Next(s, step, cfg).tasks, c, s.tasks[step.task].key, step.now);
  }

  /** The stream of the connection that a task transmits on, after the transmission. */
  lemma TransmittedStream(s: State, t: nat, n: nat, now: nat, cfg: Config)
    requires Typed(s) && WireInv(s, cfg) && Proper(cfg)
    requires t < |s.tasks| && s.tasks[t].pc.Writing? && 1 <= n <= |s.tasks[t].pc.left|
    ensures var c, e := s.tasks[t].pc.c, Sent(s, t, n, now);
            && StreamOk(cfg, s.tasks, c, e.conns[c])
            && (!e.conns[c].broken && n == |s.tasks[t].pc.left| ==> AtBoundary(cfg, s.tasks, c, e.conns[c]))
            && (!e.conns[c].broken && n < |s.tasks[t].pc.left| ==>
                  MidFrame(cfg, s.tasks, c, e.conns[c], s.tasks[t].packet, s.tasks[t].pc.left[n..]))
  {
    var task := s.tasks[t];
    assert PcOk(s.conns, s.pool, task.key, task.pc) && WriterOk(cfg, s, t);
    var c, left := task.pc.c, task.pc.left;
    var conn := s.conns[c];
    assert StreamOk(cfg, s.tasks, c, conn);
    if !conn.broken {
      if n < |left| {
        TransmitContinues(cfg, s.tasks, c, conn, task.packet, left, n);
      } else {
        assert left[..n] == left;
        TransmitCompletes(cfg, s.tasks, c, conn, t, left);
      }
    }
  }

  lemma StreamsKept(s: State, step: Step, cfg: Config, c: nat)
    requires Typed(s) && Enabled(s, step) && WireInv(s, cfg) && Proper(cfg)
    requires c < |EffectOf(s, step, cfg).conns|
    ensures StreamOk(cfg, Next(s, step, cfg).tasks, c, EffectOf(s, step, cfg).conns[c])
  {
    var pc, e, s' := s.tasks[step.task].pc, EffectOf(s, step, cfg), Next(s, step, cfg);
    CallsKept(s, step, cfg);
    if c >= |s.conns| {
      OpenedStream(s, step, cfg, c);
    } else if !((pc.Sealing? || pc.Writing?) && pc.c == c) {
      StreamsUntouched(s, step, cfg, c);
      StreamOkTransfers(cfg, s.tasks, s'.tasks, c, s.conns[c], e.conns[c]);
    } else if step.action.Transmit? {
      TransmittedStream(s, step.task, step.action.n, step.now, cfg);
      StreamOkTransfers(cfg, s.tasks, s'.tasks, c, e.conns[c], e.conns[c]);
    } else {
      StreamOkTransfers(cfg, s.tasks, s'.tasks, c, s.conns[c], e.conns[c]);
    }
  }

  /** A task that is about to seal is the only one near the stream, so it is between frames. */
  lemma SealerIsAtBoundary(s: State, t: nat, cfg: Config)
    requires LockInv(s) && Typed(s) && WireInv(s, cfg) && t < |s.tasks| && s.tasks[t].pc.Sealing?
    requires !s.conns[s.tasks[t].pc.c].broken
    ensures AtBoundary(cfg, s.tasks, s.tasks[t].pc.c, s.conns[s.tasks[t].pc.c])
  {
    var c := s.tasks[t].pc.c;
    assert PcOk(s.conns, s.pool, s.tasks[t].key, s.tasks[t].pc);
    forall u | 0 <= u < |s.tasks| ensures !WritesTo(s.tasks[u].pc, c) {
      if u != t {
        SoleWriter(s, t, c, u);
      }
    }
    assert Idle(s.tasks, c);
  }

  lemma AtBoundaryTransfers(cfg: Config, a: seq<Task>, b: seq<Task>, c: nat, x: Conn, y: Conn)
    requires SameCalls(a, b) && AtBoundary(cfg, a, c, x) && SameStream(x, y)
    ensures AtBoundary(cfg, b, c, y)
  {
    SameFrames(cfg, a, b, c, x.good);
  }

  lemma IdleBefore(s: State, step: Step, cfg: Config, c: nat)
    requires Typed(s) && Enabled(s, step)
    requires !WritesTo(s.tasks[step.task].pc, c) && Idle(Next(s, step, cfg).tasks, c)
    ensures Idle(s.tasks, c)
  {
    var s' := Next(s, step, cfg);
    forall u | 0 <= u < |s.tasks| ensures !WritesTo(s.tasks[u].pc, c) {
      assert u != step.task ==> s'.tasks[u] == s.tasks[u];
      assert !WritesTo(s'.tasks[u].pc, c);
    }
  }

  lemma IdleIsBoundary(s: State, cfg: Config, c: nat)
    requires WireInv(s, cfg) && c < |s.conns| && !s.conns[c].broken && Idle(s.tasks, c)
    ensures AtBoundary(cfg, s.tasks, c, s.conns[c])
  {
  }

  /** A stream that the step does not touch stays at its boundary. */
  lemma UntouchedBoundary(s: State, step: Step, cfg: Config, c: nat)
    requires Typed(s) && Enabled(s, step) && WireInv(s, cfg) && c < |s.conns| && c < |EffectOf(s, step, cfg).conns|
    requires var pc := s.tasks[step.task].pc; !((pc.Sealing? || pc.Writing?) && pc.c == c)
    requires !EffectOf(s, step, cfg).conns[c].broken && Idle(Next(s, step, cfg).tasks, c)
    ensures AtBoundary(cfg, Next(s, step, cfg).tasks, c, EffectOf(s, step, cfg).conns[c])
  {
    CallsKept(s, step, cfg);
    StreamsUntouched(s, step, cfg, c);
    IdleBefore(s, step, cfg, c);
    IdleIsBoundary(s, cfg, c);
    AtBoundaryTransfers(cfg, s.tasks, Next(s, step, cfg).tasks, c, s.conns[c], EffectOf(s, step, cfg).conns[c]);
  }

  /** A writer that leaves its stream intact and at rest has completed its frame. */
  lemma WriterBoundary(s: State, step: Step, cfg: Config)
    requires Typed(s) && Enabled(s, step) && WireInv(s, cfg) && Proper(cfg) && s.tasks[step.task].pc.Writing?
    requires var c := s.tasks[step.task].pc.c;
             c < |s.conns| && !EffectOf(s, step, cfg).conns[c].broken && !WritesTo(EffectOf(s, step, cfg).pc, c)
    ensures var c := s.tasks[step.task].pc.c;
            AtBoundary(cfg, Next(s, step, cfg).tasks, c, EffectOf(s, step, cfg).conns[c])
  {
    var c, s' := s.tasks[step.task].pc.c, Next(s, step, cfg);
    CallsKept(s, step, cfg);
    assert step.action.Transmit?;
    TransmittedStream(s, step.task, step.action.n, step.now, cfg);
    AtBoundaryTransfers(cfg, s.tasks, s'.tasks, c, s'.conns[c], s'.conns[c]);
  }

  lemma SealerBoundary(s: State, step: Step, cfg: Config)
    requires Typed(s) && LockInv(s) && Enabled(s, step) && WireInv(s, cfg) && s.tasks[step.task].pc.Sealing?
    requires var c := s.tasks[step.task].pc.c;
             c < |s.conns| && !EffectOf(s, step, cfg).conns[c].broken && !WritesTo(EffectOf(s, step, cfg).pc, c)
    ensures var c := s.tasks[step.task].pc.c;
            AtBoundary(cfg, Next(s, step, cfg).tasks, c, EffectOf(s, step, cfg).conns[c])
  {
    var c, s' := s.tasks[step.task].pc.c, Next(s, step, cfg);
    CallsKept(s, step, cfg);
    SealerIsAtBoundary(s, step.task, cfg);
    AtBoundaryTransfers(cfg, s.tasks, s'.tasks, c, s.conns[c], s'.conns[c]);
  }

  lemma BoundariesKept(s: State, step: Step, cfg: Config, c: nat)
    requires Typed(s) && LockInv(s) && Enabled(s, step) && WireInv(s, cfg) && Proper(cfg)
    requires c < |EffectOf(s, step, cfg).conns|
    requires !EffectOf(s, step, cfg).conns[c].broken && Idle(Next(s, step, cfg).tasks, c)
    ensures AtBoundary(cfg, Next(s, step, cfg).tasks, c, EffectOf(s, step, cfg).conns[c])
  {
    var t, s' := step.task, Next(s, step, cfg);
    var pc := s.tasks[t].pc;
    assert !WritesTo(s'.tasks[t].pc, c);
    if c >= |s.conns| {
      OpenedStream(s, step, cfg, c);
    } else if WritesTo(pc, c) {
      WriterBoundary(s, step, cfg);
    } else if pc.Sealing? && pc.c == c {
      SealerBoundary(s, step, cfg);
    } else {
      UntouchedBoundary(s, step, cfg, c);
    }
  }

  lemma MidFrameTransfers(cfg: Config, a: seq<Task>, b: seq<Task>, c: nat, x: Conn, y: Conn, packet: Bytes, left: Bytes)
    requires SameCalls(a, b) && MidFrame(cfg, a, c, x, packet, left) && SameStream(x, y)
    ensures MidFrame(cfg, b, c, y, packet, left)
  {
    SameFrames(cfg, a, b, c, x.good);
  }

  lemma OtherWriter(s: State, step: Step, cfg: Config, u: nat)
    requires Typed(s) && LockInv(s) && Enabled(s, step) && WireInv(s, cfg) && u < |s.tasks| && u != step.task
    ensures WriterOk(cfg, Next(s, step, cfg), u)
  {
    var task, s' := s.tasks[u], Next(s, step, cfg);
    CallsKept(s, step, cfg);
    if task.pc.Writing? {
      var c := task.pc.c;
      assert PcOk(s.conns, s.pool, task.key, task.pc) && WriterOk(cfg, s, u);
      if NoiseLock(c) in Held(s.tasks[step.task].pc) {
        Alone(s, u, step.task, NoiseLock(c));
      }
      StreamsUntouched(s, step, cfg, c);
      if !s.conns[c].broken {
        MidFrameTransfers(cfg, s.tasks, s'.tasks, c, s.conns[c], s'.conns[c], task.packet, task.pc.left);
      }
    }
  }

  lemma SealerBecomesWriter(s: State, step: Step, cfg: Config)
    requires Typed(s) && LockInv(s) && Enabled(s, step) && WireInv(s, cfg)
    requires s.tasks[step.task].pc.Sealing? && step.action.Proceed?
    ensures WriterOk(cfg, Next(s, step, cfg), step.task)
  {
    var task, s' := s.tasks[step.task], Next(s, step, cfg);
    var c := task.pc.c;
    assert PcOk(s.conns, s.pool, task.key, task.pc);
    CallsKept(s, step, cfg);
    if |task.packet| == PACKET_SIZE && !s.conns[c].broken {
      SealerIsAtBoundary(s, step.task, cfg);
      SealStarts(cfg, s.tasks, c, s.conns[c], task.packet);
      MidFrameTransfers(cfg, s.tasks, s'.tasks, c, s'.conns[c], s'.conns[c], task.packet, s'.tasks[step.task].pc.left);
    }
  }

  lemma TransmitterStaysWriter(s: State, step: Step, cfg: Config)
    requires Typed(s) && LockInv(s) && Enabled(s, step) && WireInv(s, cfg) && Proper(cfg)
    requires step.action.Transmit?
    ensures WriterOk(cfg, Next(s, step, cfg), step.task)
  {
    var task, s' := s.tasks[step.task], Next(s, step, cfg);
    var c, n := task.pc.c, step.action.n;
    assert PcOk(s.conns, s.pool, task.key, task.pc) && WriterOk(cfg, s, step.task);
    CallsKept(s, step, cfg);
    if n < |task.pc.left| {
      TransmittedStream(s, step.task, n, step.now, cfg);
      if !s'.conns[c].broken {
        MidFrameTransfers(cfg, s.tasks, s'.tasks, c, s'.conns[c], s'.conns[c], task.packet, task.pc.left[n..]);
      }
    }
  }

  lemma NoNewWriter(s: State, step: Step, cfg: Config)
    requires Typed(s) && Enabled(s, step) && !step.action.Transmit?
    requires !(s.tasks[step.task].pc.Sealing? && step.action.Proceed?)
    ensures !EffectOf(s, step, cfg).pc.Writing?
  {
  }

  lemma OwnWriter(s: State, step: Step, cfg: Config)
    requires Typed(s) && LockInv(s) && Enabled(s, step) && WireInv(s, cfg) && Proper(cfg)
    ensures WriterOk(cfg, Next(s, step, cfg), step.task)
  {
    if step.action.Transmit? {
      TransmitterStaysWriter(s, step, cfg);
    } else if s.tasks[step.task].pc.Sealing? && step.action.Proceed? {
      SealerBecomesWriter(s, step, cfg);
    } else {
      NoNewWriter(s, step, cfg);
    }
  }

  lemma WireKept(s: State, step: Step, cfg: Config)
    requires Safe(s, cfg) && Enabled(s, step) && WireInv(s, cfg) && Proper(cfg)
    ensures WireInv(Next(s, step, cfg), cfg)
  {
    var s' := Next(s, step, cfg);
    forall c | 0 <= c < |s'.conns| ensures StreamOk(cfg, s'.tasks, c, s'.conns[c]) {
      StreamsKept(s, step, cfg, c);
    }
    forall c | 0 <= c < |s'.conns| && !s'.conns[c].broken && Idle(s'.tasks, c)
      ensures AtBoundary(cfg, s'.tasks, c, s'.conns[c])
    {
      BoundariesKept(s, step, cfg, c);
    }
    forall u | 0 <= u < |s'.tasks| ensures WriterOk(cfg, s', u) {
      if u == step.task {
        OwnWriter(s, step, cfg);
      } else {
        OtherWriter(s, step, cfg, u);
      }
    }
  }

  // ------------------------------------------------------------ exactly once

  function Mentions(conn: Conn, t: nat): nat {
    multiset(conn.good)[t] + multiset(conn.late)[t]
  }

  /** How many whole frames of call `t` were written, over all connections. */
  function FramesWritten(conns: seq<Conn>, t: nat): nat {
    if conns == [] then 0 else FramesWritten(conns[..|conns| - 1], t) + Mentions(conns[|conns| - 1], t)
  }

  /** The point at which a call has its packet out. */
  predicate HasWritten(pc: Pc) {
    match pc
    case WantStamp(_, _, _) => true
    case Stamping(_, _, _) => true
    case WantInsert(_) => true
    case Inserting(_) => true
    case Scanning(_, _, _) => true
    case WantRead(_, _, _, _, _) => true
    case Reading(_, _, _, _, _) => true
    case Finished(ok) => ok
    case _ => false
  }

  ghost predicate OnceInv(s: State) {
    forall t :: 0 <= t < |s.tasks| ==> FramesWritten(s.conns, t) == if HasWritten(s.tasks[t].pc) then 1 else 0
  }

  lemma {:induction false} FramesWrittenUpdate(conns: seq<Conn>, c: nat, conn: Conn, t: nat)
    requires c < |conns|
    ensures FramesWritten(conns[c := conn], t) == FramesWritten(conns, t) - Mentions(conns[c], t) + Mentions(conn, t)
  {
    var last := |conns| - 1;
    if c < last {
      FramesWrittenUpdate(conns[..last], c, conn, t);
      assert conns[c := conn][..last] == conns[..last][c := conn];
    } else {
      assert conns[c := conn][..last] == conns[..last];
    }
  }

  lemma FramesWrittenOpen(conns: seq<Conn>, conn: Conn, t: nat)
    ensures FramesWritten(conns + [conn], t) == FramesWritten(conns, t) + Mentions(conn, t)
  {
    assert (conns + [conn])[..|conns|] == conns;
  }

  lemma {:induction false} SomeFrame(conns: seq<Conn>, t: nat) returns (c: nat)
    requires FramesWritten(conns, t) > 0
    ensures c < |conns| && (t in conns[c].good || t in conns[c].late)
  {
    var last := |conns| - 1;
    if Mentions(conns[last], t) > 0 {
      c := last;
    } else {
      c := SomeFrame(conns[..last], t);
    }
  }

  predicate Completes(s: State, step: Step) {
    && step.action.Transmit? && step.task < |s.tasks|
    && s.tasks[step.task].pc.Writing? && step.action.n == |s.tasks[step.task].pc.left|
  }

  lemma TransmitMentions(s: State, step: Step, cfg: Config, u: nat)
    requires Typed(s) && Enabled(s, step) && step.action.Transmit?
    ensures var c, e := s.tasks[step.task].pc.c, EffectOf(s, step, cfg);
            Mentions(e.conns[c], u) == Mentions(s.conns[c], u) + if u == step.task && Completes(s, step) then 1 else 0
  {
    assert PcOk(s.conns, s.pool, s.tasks[step.task].key, s.tasks[step.task].pc);
  }

  /** Steps that change a connection other than by transmitting change nothing that counts here. */
  lemma QuietUpdate(conns: seq<Conn>, c: nat, conn: Conn, u: nat)
    requires c < |conns| && conn.good == conns[c].good && conn.late == conns[c].late
    ensures FramesWritten(conns[c := conn], u) == FramesWritten(conns, u)
  {
    FramesWrittenUpdate(conns, c, conn, u);
  }

  lemma QuietProceed(s: State, step: Step, cfg: Config, u: nat)
    requires Typed(s) && Enabled(s, step) && (step.action.Proceed? || step.action.Break?)
    ensures FramesWritten(EffectOf(s, step, cfg).conns, u) == FramesWritten(s.conns, u)
  {
    var task, e := s.tasks[step.task], EffectOf(s, step, cfg);
    assert PcOk(s.conns, s.pool, task.key, task.pc);
    if e.conns != s.conns {
      var c := task.pc.c;
      assert e.conns == s.conns[c := e.conns[c]];
      QuietUpdate(s.conns, c, e.conns[c], u);
    }
  }

  /** A step writes a whole frame only by transmitting its last bytes. */
  lemma FramesWrittenStep(s: State, step: Step, cfg: Config, u: nat)
    requires Typed(s) && Enabled(s, step)
    ensures FramesWritten(EffectOf(s, step, cfg).conns, u)
         == FramesWritten(s.conns, u) + if u == step.task && Completes(s, step) then 1 else 0
  {
    var task, e := s.tasks[step.task], EffectOf(s, step, cfg);
    match step.action
    case Open => FramesWrittenOpen(s.conns, e.conns[|s.conns|], u);
    case Transmit(n) =>
      assert PcOk(s.conns, s.pool, task.key, task.pc);
      TransmitMentions(s, step, cfg, u);
      FramesWrittenUpdate(s.conns, task.pc.c, e.conns[task.pc.c], u);
    case Proceed => QuietProceed(s, step, cfg, u);
    case Break => QuietProceed(s, step, cfg, u);
    case Acquire =>
    case Refuse =>
    case Pick(_) =>
  }

  lemma HasWrittenProceed(s: State, t: nat, cfg: Config)
    requires Typed(s) && t < |s.tasks| && Enabled(s, Step(t, Proceed, s.clock))
    ensures HasWritten(Advance(s, t, cfg).pc) <==> HasWritten(s.tasks[t].pc)
  {
    assert PcOk(s.conns, s.pool, s.tasks[t].key, s.tasks[t].pc);
    match s.tasks[t].pc
    case Looking =>
    case Sealing(_, _) =>
    case Stamping(_, _, _) =>
    case Removing =>
    case Inserting(_) =>
    case Reading(_, _, _, _, _) =>
    case Scanning(_, _, _) =>
  }

  /** A call gets past its write exactly by completing the frame. */
  lemma HasWrittenStep(s: State, step: Step, cfg: Config)
    requires Typed(s) && Enabled(s, step)
    ensures HasWritten(EffectOf(s, step, cfg).pc) <==> HasWritten(s.tasks[step.task].pc) || Completes(s, step)
    ensures !(HasWritten(s.tasks[step.task].pc) && Completes(s, step))
  {
    match step.action
    case Proceed => HasWrittenProceed(s, step.task, cfg);
    case Acquire =>
    case Transmit(_) =>
    case Break =>
    case Open =>
    case Refuse =>
    case Pick(_) =>
  }

  lemma OnceKept(s: State, step: Step, cfg: Config)
    requires Typed(s) && Enabled(s, step) && OnceInv(s)
    ensures OnceInv(Next(s, step, cfg))
  {
    var s' := Next(s, step, cfg);
    HasWrittenStep(s, step, cfg);
    forall u | 0 <= u < |s'.tasks|
      ensures FramesWritten(s'.conns, u) == if HasWritten(s'.tasks[u].pc) then 1 else 0
    {
      FramesWrittenStep(s, step, cfg, u);
    }
  }

  // ------------------------------------------------------------ main results

  lemma InitialWire(s: State, cfg: Config)
    requires Initial(s)
    ensures WireInv(s, cfg) && OnceInv(s)
  {
  }

  lemma {:induction false} RunKeepsWire(s: State, run: seq<Step>, cfg: Config)
    requires Safe(s, cfg) && Proper(cfg) && ValidRun(s, run, cfg) && WireInv(s, cfg) && OnceInv(s)
    ensures WireInv(After(s, run, cfg), cfg) && OnceInv(After(s, run, cfg))
    decreases |run|
  {
    if run == [] {
    } else {
      StepIsSafe(s, run[0], cfg);
      WireKept(s, run[0], cfg);
      OnceKept(s, run[0], cfg);
      RunKeepsWire(Next(s, run[0], cfg), run[1..], cfg);
    }
  }

  /** Less than a frame after whole frames: the peer's loop reads the whole ones and stops. */
  lemma PeerReadsGood(s: State, cfg: Config, c: nat)
    requires WireInv(s, cfg) && Proper(cfg) && c < |s.conns|
    ensures ReadFrames(cfg.cipher(c), 0, s.conns[c].before) == Packets(s.tasks, s.conns[c].good)
  {
    var conn := s.conns[c];
    assert StreamOk(cfg, s.tasks, c, conn);
    var frames := FramesOf(cfg, s.tasks, c, conn.good);
    assert conn.before == frames + conn.before[|frames|..];
    assert Lawful(cfg.cipher(c));
    FramesRoundTrip(cfg.cipher(c), 0, Packets(s.tasks, conn.good), conn.before[|frames|..]);
  }

  lemma ReachableWire(cfg: Config, r: State)
    requires Reachable(cfg, r)
    ensures WireInv(r, cfg) && OnceInv(r)
  {
    var s, run :| Interleaves(s, run, cfg) && Reached(s, run, cfg) == r;
    InitialIsSafe(s, cfg);
    InitialWire(s, cfg);
    RunKeepsWire(s, run, cfg);
  }

  /**
   Wire order: for every interleaving of any number of senders, what a stream carries before
   its first failed write is whole frames under the counters 0, 1, 2, … and less than a frame
   more, so that the peer's read loop recovers exactly the packets of `good`, in that order.
   */
  lemma WireOrder(cfg: Config, r: State, c: nat)
    requires Reachable(cfg, r) && c < |r.conns|
    ensures ReadFrames(cfg.cipher(c), 0, r.conns[c].before) == Packets(r.tasks, r.conns[c].good)
  {
    ReachableWire(cfg, r);
    PeerReadsGood(r, cfg, c);
  }

  /** Call `t` has written one whole frame, to a connection opened to its own peer. */
  ghost predicate WroteOnce(s: State, t: nat)
    requires t < |s.tasks|
  {
    && FramesWritten(s.conns, t) == 1
    && exists c :: 0 <= c < |s.conns| && s.conns[c].key == s.tasks[t].key &&
        (t in s.conns[c].good || t in s.conns[c].late)
  }

  lemma OutcomeTells(s: State, cfg: Config, t: nat)
    requires WireInv(s, cfg) && OnceInv(s) && t < |s.tasks| && s.tasks[t].pc.Finished?
    ensures if s.tasks[t].pc.ok then WroteOnce(s, t) else FramesWritten(s.conns, t) == 0
  {
    if s.tasks[t].pc.ok {
      var c := SomeFrame(s.conns, t);
      assert StreamOk(cfg, s.tasks, c, s.conns[c]);
    }
  }

  /**
   Exactly once: in every interleaving, a call that returns success has written one whole
   frame, to a connection opened to its own peer; a call that fails has written none.
   */
  lemma WrittenExactlyOnce(cfg: Config, r: State, t: nat)
    requires Reachable(cfg, r) && t < |r.tasks| && r.tasks[t].pc.Finished?
    ensures if r.tasks[t].pc.ok then WroteOnce(r, t) else FramesWritten(r.conns, t) == 0
  {
    ReachableWire(cfg, r);
    OutcomeTells(r, cfg, t);
  }

  // --------------------------------------------------- what success means to the peer

  lemma {:induction false} MentionsCounted(conns: seq<Conn>, c: nat, t: nat)
    requires c < |conns|
    ensures Mentions(conns[c], t) <= FramesWritten(conns, t)
  {
    var last := |conns| - 1;
    if c == last {
    } else {
      MentionsCounted(conns[..last], c, t);
    }
  }

  lemma {:induction false} BothCounted(conns: seq<Conn>, c: nat, d: nat, t: nat)
    requires c < d < |conns|
    ensures Mentions(conns[c], t) + Mentions(conns[d], t) <= FramesWritten(conns, t)
  {
    var last := |conns| - 1;
    if d == last {
      MentionsCounted(conns[..last], c, t);
    } else {
      BothCounted(conns[..last], c, d, t);
    }
  }

  lemma TwiceInSeq(ids: seq<nat>, i: nat, j: nat, t: nat)
    requires i < j < |ids| && ids[i] == t && ids[j] == t
    ensures multiset(ids)[t] >= 2
  {
    assert ids == ids[..j] + ids[j..];
    assert ids[..j][i] == t && ids[j..][0] == t;
    assert t in multiset(ids[..j]) && t in multiset(ids[j..]);
  }

  /** Among the packets that the peer recovers is that of call `t`, at one place that stands for the call. */
  ghost predicate ReadOnce(cfg: Config, s: State, c: nat, t: nat)
    requires c < |s.conns| && t < |s.tasks|
  {
    var packets, ids := ReadFrames(cfg.cipher(c), 0, s.conns[c].before), s.conns[c].good;
    && |packets| == |ids|
    && exists k :: 0 <= k < |ids| && ids[k] == t && packets[k] == s.tasks[t].packet
                   && forall j :: 0 <= j < |ids| && ids[j] == t ==> j == k
  }

  lemma OnePlace(ids: seq<nat>, t: nat) returns (k: nat)
    requires t in ids && multiset(ids)[t] <= 1
    ensures k < |ids| && ids[k] == t && forall j :: 0 <= j < |ids| && ids[j] == t ==> j == k
  {
    k :| 0 <= k < |ids| && ids[k] == t;
    forall j | 0 <= j < |ids| && ids[j] == t ensures j == k {
      if j < k {
        TwiceInSeq(ids, j, k, t);
      } else if k < j {
        TwiceInSeq(ids, k, j, t);
      }
    }
  }

  lemma ReadsItsPlace(cfg: Config, s: State, c: nat, t: nat)
    requires WireInv(s, cfg) && Proper(cfg) && c < |s.conns| && t < |s.tasks| && multiset(s.conns[c].good)[t] <= 1
    ensures ReadOnce(cfg, s, c, t) <==> t in s.conns[c].good
  {
    PeerReadsGood(s, cfg, c);
    if t in s.conns[c].good {
      var k := OnePlace(s.conns[c].good, t);
    }
  }

  /**
   Once a call is over, the peer recovers its packet from a connection if and only if the frame
   was written there before any write failed.
   */
  lemma ReadOnceExactly(cfg: Config, r: State, c: nat, t: nat)
    requires Reachable(cfg, r) && c < |r.conns| && t < |r.tasks| && r.tasks[t].pc.Finished?
    ensures ReadOnce(cfg, r, c, t) <==> t in r.conns[c].good
  {
    ReachableWire(cfg, r);
    MentionsCounted(r.conns, c, t);
    ReadsItsPlace(cfg, r, c, t);
  }

  /** Connection `c` alone carries a frame of call `t`, and goes to its peer. */
  ghost predicate CarriedBy(s: State, c: nat, t: nat)
    requires t < |s.tasks|
  {
    && c < |s.conns| && s.conns[c].key == s.tasks[t].key && (t in s.conns[c].good || t in s.conns[c].late)
    && forall d :: 0 <= d < |s.conns| && d != c ==> t !in s.conns[d].good && t !in s.conns[d].late
  }

  lemma CarriedOnce(cfg: Config, r: State, t: nat) returns (c: nat)
    requires WireInv(r, cfg) && t < |r.tasks| && FramesWritten(r.conns, t) == 1
    ensures CarriedBy(r, c, t)
  {
    c := SomeFrame(r.conns, t);
    assert StreamOk(cfg, r.tasks, c, r.conns[c]);
    forall d | 0 <= d < |r.conns| && d != c ensures t !in r.conns[d].good && t !in r.conns[d].late {
      if c < d {
        BothCounted(r.conns, c, d, t);
      } else {
        BothCounted(r.conns, d, c, t);
      }
    }
  }

  lemma CarriedWhole(cfg: Config, r: State, c: nat, t: nat)
    requires WireInv(r, cfg) && t < |r.tasks| && CarriedBy(r, c, t) && !r.conns[c].broken
    ensures t in r.conns[c].good
  {
    assert StreamOk(cfg, r.tasks, c, r.conns[c]);
  }

  lemma UnbrokenReadsOnce(cfg: Config, r: State, c: nat, t: nat)
    requires Reachable(cfg, r) && t < |r.tasks| && r.tasks[t].pc.Finished? && CarriedBy(r, c, t) && !r.conns[c].broken
    ensures ReadOnce(cfg, r, c, t)
  {
    ReachableWire(cfg, r);
    CarriedWhole(cfg, r, c, t);
    ReadOnceExactly(cfg, r, c, t);
  }

  lemma SuccessIsCarried(cfg: Config, r: State, t: nat) returns (c: nat)
    requires Reachable(cfg, r) && t < |r.tasks| && r.tasks[t].pc == Finished(true)
    ensures CarriedBy(r, c, t)
  {
    ReachableWire(cfg, r);
    WrittenExactlyOnce(cfg, r, t);
    c := CarriedOnce(cfg, r, t);
  }

  /**
   What success is worth: in every interleaving, a call that returned Ok is carried by one
   connection, opened to its peer, and unless a write on that connection failed the peer
   recovers the call's packet, exactly once.
   */
  lemma OkReachesPeer(cfg: Config, r: State, t: nat) returns (c: nat)
    requires Reachable(cfg, r) && t < |r.tasks| && r.tasks[t].pc == Finished(true)
    ensures CarriedBy(r, c, t) && (!r.conns[c].broken ==> ReadOnce(cfg, r, c, t))
  {
    c := SuccessIsCarried(cfg, r, t);
    if !r.conns[c].broken {
      UnbrokenReadsOnce(cfg, r, c, t);
    }
  }
}
