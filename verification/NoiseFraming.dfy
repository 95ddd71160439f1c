/**
 Framing over a Noise transport. Messages are sealed under an implicit counter that both
 ends advance by one per message (section 5.1 of the Noise Protocol Framework, revision 34)
 and are at most 65535 bytes long sealed (section 3). A blob travels as a 4-byte length
 and then as chunks of at most 32 KiB; a mixnet packet travels as one sealed frame of fixed size.
 */
module NoiseFraming {
  import opened Prelude

  const NOISE_TAG_LEN: nat := 16
  const NOISE_MAX_MESSAGE: nat := 65535
  const NOISE_CHUNK: nat := 32 * 1024
  const PACKET_SIZE: nat := 2048
  const FRAME_LEN: nat := PACKET_SIZE + NOISE_TAG_LEN

  /** One direction of an established session: sealing and opening under a message counter. */
  datatype Cipher = Cipher(seal: (nat, Bytes) -> Bytes, open: (nat, Bytes) -> Option<Bytes>)

  /** What is assumed of it: opening undoes sealing, and sealing adds exactly the tag. */
  ghost predicate Lawful(c: Cipher) {
    && (forall n: nat, m: Bytes :: |c.seal(n, m)| == |m| + NOISE_TAG_LEN && c.open(n, c.seal(n, m)) == Some(m))
    && (forall n: nat, b: Bytes :: c.open(n, b).Some? ==> |c.open(n, b).value| + NOISE_TAG_LEN == |b|)
  }

  datatype Failure = StreamEnded | StreamBroken | BadHandshake | NoiseFailed

  // -------------------------------------------------------- length-prefixed messages

  predicate Sealable(msg: Bytes) {
    |msg| + NOISE_TAG_LEN <= NOISE_MAX_MESSAGE
  }

  /** The wire form of one message: two bytes of sealed length, then the sealed bytes. */
  function Message(c: Cipher, n: nat, msg: Bytes): Bytes {
    ToBigEndian(|c.seal(n, msg)|, 2) + c.seal(n, msg)
  }

  datatype Received = Got(msg: Bytes, rest: Bytes) | Failed(failure: Failure)

  function ReadMessage(c: Cipher, n: nat, stream: Bytes): Received {
    if |stream| < 2 then Failed(StreamEnded)
    else
      var len := FromBigEndian(stream[..2]);
      if !(NOISE_TAG_LEN + 1 <= len <= NOISE_CHUNK + NOISE_TAG_LEN) then Failed(BadHandshake)
      else if |stream| < 2 + len then Failed(StreamEnded)
      else
        match c.open(n, stream[2..2 + len])
        case None => Failed(NoiseFailed)
        case Some(msg) => Got(msg, stream[2 + len..])
  }

  lemma MessageRoundTrip(c: Cipher, n: nat, msg: Bytes, tail: Bytes)
    requires Lawful(c) && 1 <= |msg| <= NOISE_CHUNK
    ensures ReadMessage(c, n, Message(c, n, msg) + tail) == Got(msg, tail)
  {
    var sealed := c.seal(n, msg);
    var stream := Message(c, n, msg) + tail;
    Pow256Widths();
    BigEndianRoundTrip(|sealed|, 2);
    assert stream[..2] == ToBigEndian(|sealed|, 2);
    assert stream[2..2 + |sealed|] == sealed;
    assert stream[2 + |sealed|..] == tail;
  }

  /** The length that two bytes announce. */
  lemma TwoBytes(b: Bytes)
    requires |b| == 2
    ensures FromBigEndian(b) == 256 * b[0] as int + b[1] as int
  {
    assert b[..1][..0] == [];
    assert FromBigEndian(b[..1]) == b[0];
  }

  /**
   How reading a message fails: for its length exactly if it announces less than 17 or more
   than 32784 bytes, for the end of the stream exactly if that comes before the announced
   bytes, and otherwise only if they do not open.
   */
  lemma ReadFailsExactly(c: Cipher, n: nat, stream: Bytes)
    ensures |stream| < 2 ==> ReadMessage(c, n, stream) == Failed(StreamEnded)
    ensures |stream| >= 2 ==>
              var len, got := 256 * stream[0] as int + stream[1] as int, ReadMessage(c, n, stream);
              && (got == Failed(BadHandshake) <==> !(17 <= len <= 32784))
              && (got == Failed(StreamEnded) <==> 17 <= len <= 32784 && |stream| < 2 + len)
              && (got == Failed(NoiseFailed) <==>
                    17 <= len <= 32784 && 2 + len <= |stream| && c.open(n, stream[2..2 + len]).None?)
              && (got.Got? ==> c.open(n, stream[2..2 + len]) == Some(got.msg) && got.rest == stream[2 + len..])
  {
    if |stream| >= 2 {
      TwoBytes(stream[..2]);
    }
  }

  // ------------------------------------------------------------------- blobs

  function Chunks(c: Cipher, n: nat, blob: Bytes): Bytes
    decreases |blob|
  {
    if blob == [] then []
    else
      var k := Min(|blob|, NOISE_CHUNK);
      Message(c, n, blob[..k]) + Chunks(c, n + 1, blob[k..])
  }

  function ChunkCount(len: nat): nat {
    if len == 0 then 0 else 1 + ChunkCount(Monus(len, NOISE_CHUNK))
  }

  /** The length header (the low 32 bits of the length) and the chunks. */
  function Blob(c: Cipher, n: nat, blob: Bytes): Bytes {
    Message(c, n, ToBigEndian(|blob|, 4)) + Chunks(c, n + 1, blob)
  }

  function BlobMessages(blob: Bytes): nat {
    1 + ChunkCount(|blob|)
  }

  lemma MessageLength(c: Cipher, n: nat, msg: Bytes)
    requires Lawful(c)
    ensures |Message(c, n, msg)| == |msg| + 18
  {
    assert |c.seal(n, msg)| == |msg| + NOISE_TAG_LEN;
  }

  lemma {:induction false} ChunksLength(c: Cipher, n: nat, blob: Bytes)
    requires Lawful(c)
    ensures |Chunks(c, n, blob)| == |blob| + 18 * ((|blob| + 32767) / 32768)
    decreases |blob|
  {
    if blob == [] {
    } else {
      var k := Min(|blob|, NOISE_CHUNK);
      MessageLength(c, n, blob[..k]);
      ChunksLength(c, n + 1, blob[k..]);
    }
  }

  /** On the wire: 22 bytes for the length, and 18 bytes for every 32768 bytes of the blob or part of them. */
  lemma BlobLength(c: Cipher, n: nat, blob: Bytes)
    requires Lawful(c)
    ensures |Blob(c, n, blob)| == 22 + |blob| + 18 * ((|blob| + 32767) / 32768)
  {
    MessageLength(c, n, ToBigEndian(|blob|, 4));
    ChunksLength(c, n + 1, blob);
  }

  datatype BlobRead = BlobGot(blob: Bytes, rest: Bytes, n: nat) | BlobFailed(failure: Failure)

  function ReadChunks(c: Cipher, n: nat, stream: Bytes, out: Bytes, total: nat): BlobRead
    decreases Monus(total, |out|)
  {
    if |out| >= total then BlobGot(out, stream, n)
    else
      match ReadMessage(c, n, stream)
      case Failed(f) => BlobFailed(f)
      case Got(msg, rest) =>
        if |msg| == 0 || |out| + |msg| > total then BlobFailed(BadHandshake)
        else ReadChunks(c, n + 1, rest, out + msg, total)
  }

  function ReadBlob(c: Cipher, n: nat, stream: Bytes, cap: nat): BlobRead {
    match ReadMessage(c, n, stream)
    case Failed(f) => BlobFailed(f)
    case Got(header, rest) =>
      if |header| != 4 then BlobFailed(BadHandshake)
      else if FromBigEndian(header) > cap then BlobFailed(BadHandshake)
      else ReadChunks(c, n + 1, rest, [], FromBigEndian(header))
  }

  /** A header that is not four bytes long, or announces more than the cap, is refused before anything else is read. */
  lemma HeaderIsChecked(c: Cipher, n: nat, stream: Bytes, cap: nat)
    requires ReadMessage(c, n, stream).Got?
    requires var header := ReadMessage(c, n, stream).msg; |header| != 4 || FromBigEndian(header) > cap
    ensures ReadBlob(c, n, stream, cap) == BlobFailed(BadHandshake)
  {
  }

  /** So is a chunk that brings nothing, or more than was announced. */
  lemma ChunkIsChecked(c: Cipher, n: nat, stream: Bytes, out: Bytes, total: nat)
    requires |out| < total && ReadMessage(c, n, stream).Got?
    requires var msg := ReadMessage(c, n, stream).msg; msg == [] || |out| + |msg| > total
    ensures ReadChunks(c, n, stream, out, total) == BlobFailed(BadHandshake)
  {
  }

  lemma ReadChunksStep(c: Cipher, n: nat, stream: Bytes, out: Bytes, total: nat, msg: Bytes, rest: Bytes)
    requires ReadMessage(c, n, stream) == Got(msg, rest) && 1 <= |msg| && |out| + |msg| <= total
    ensures ReadChunks(c, n, stream, out, total) == ReadChunks(c, n + 1, rest, out + msg, total)
  {
  }

  lemma ChunksSplit(c: Cipher, n: nat, blob: Bytes, k: nat, out: Bytes, tail: Bytes)
    requires blob != [] && k == Min(|blob|, NOISE_CHUNK)
    ensures Chunks(c, n, blob) + tail == Message(c, n, blob[..k]) + (Chunks(c, n + 1, blob[k..]) + tail)
    ensures ChunkCount(|blob|) == 1 + ChunkCount(|blob[k..]|)
    ensures out + blob[..k] + blob[k..] == out + blob
  {
  }

  lemma ChunksRoundTripEmpty(c: Cipher, n: nat, out: Bytes, tail: Bytes)
    ensures ReadChunks(c, n, Chunks(c, n, []) + tail, out, |out|) == BlobGot(out + [], tail, n + ChunkCount(0))
  {
    assert [] + tail == tail && out + [] == out;
  }

  lemma ChunkRoundTrip(c: Cipher, n: nat, blob: Bytes, k: nat, out: Bytes, tail: Bytes, total: nat)
    requires Lawful(c) && blob != [] && k == Min(|blob|, NOISE_CHUNK) && total == |out| + |blob|
    ensures ReadChunks(c, n, Chunks(c, n, blob) + tail, out, total)
         == ReadChunks(c, n + 1, Chunks(c, n + 1, blob[k..]) + tail, out + blob[..k], total)
  {
    var after := Chunks(c, n + 1, blob[k..]) + tail;
    ChunksSplit(c, n, blob, k, out, tail);
    MessageRoundTrip(c, n, blob[..k], after);
    ReadChunksStep(c, n, Chunks(c, n, blob) + tail, out, total, blob[..k], after);
  }

  lemma {:induction false} ChunksRoundTrip(c: Cipher, n: nat, blob: Bytes, out: Bytes, tail: Bytes, total: nat)
    requires Lawful(c) && total == |out| + |blob|
    ensures ReadChunks(c, n, Chunks(c, n, blob) + tail, out, total)
         == BlobGot(out + blob, tail, n + ChunkCount(|blob|))
    decreases |blob|
  {
    if blob == [] {
      ChunksRoundTripEmpty(c, n, out, tail);
    } else {
      var k := Min(|blob|, NOISE_CHUNK);
      ChunkRoundTrip(c, n, blob, k, out, tail, total);
      ChunksRoundTrip(c, n + 1, blob[k..], out + blob[..k], tail, total);
      ChunksSplit(c, n, blob, k, out, tail);
    }
  }

  /** A blob within the reader's cap comes back, and both ends agree on the next counter. */
  lemma BlobRoundTrip(c: Cipher, n: nat, blob: Bytes, tail: Bytes, cap: nat)
    requires Lawful(c) && |blob| <= cap && |blob| < U32_LIMIT
    ensures ReadBlob(c, n, Blob(c, n, blob) + tail, cap) == BlobGot(blob, tail, n + BlobMessages(blob))
  {
    var header := ToBigEndian(|blob|, 4);
    Pow256Widths();
    BigEndianRoundTrip(|blob|, 4);
    assert Blob(c, n, blob) + tail == Message(c, n, header) + (Chunks(c, n + 1, blob) + tail);
    MessageRoundTrip(c, n, header, Chunks(c, n + 1, blob) + tail);
    ChunksRoundTrip(c, n + 1, blob, [], tail, |blob|);
    assert [] + blob == blob;
  }

  // ----------------------------------------------------------- streams of blobs

  /** Blobs written back to back, with the counter running on. */
  function WriteAll(write: (nat, Bytes) -> Bytes, n: nat, blobs: seq<Bytes>): Bytes
    decreases |blobs|
  {
    if blobs == [] then [] else write(n, blobs[0]) + WriteAll(write, n + BlobMessages(blobs[0]), blobs[1..])
  }

  datatype StreamRead = AllGot(blobs: seq<Bytes>, rest: Bytes) | StreamFailed(failure: Failure)

  /** Blobs read back to back, until `count` of them are there or one fails. */
  function ReadAll(read: (nat, Bytes) -> BlobRead, n: nat, stream: Bytes, count: nat): StreamRead
    decreases count
  {
    if count == 0 then AllGot([], stream)
    else
      match read(n, stream)
      case BlobFailed(f) => StreamFailed(f)
      case BlobGot(blob, rest, n') =>
        match ReadAll(read, n', rest, count - 1)
        case StreamFailed(f) => StreamFailed(f)
        case AllGot(blobs, rest') => AllGot([blob] + blobs, rest')
  }

  ghost predicate ReadsBack(read: (nat, Bytes) -> BlobRead, write: (nat, Bytes) -> Bytes, blob: Bytes) {
    forall n: nat, tail: Bytes :: read(n, write(n, blob) + tail) == BlobGot(blob, tail, n + BlobMessages(blob))
  }

  lemma {:induction false} AllRoundTrip(
    read: (nat, Bytes) -> BlobRead, write: (nat, Bytes) -> Bytes, n: nat, blobs: seq<Bytes>, tail: Bytes)
    requires forall i :: 0 <= i < |blobs| ==> ReadsBack(read, write, blobs[i])
    ensures ReadAll(read, n, WriteAll(write, n, blobs) + tail, |blobs|) == AllGot(blobs, tail)
    decreases |blobs|
  {
    if blobs == [] {
      assert [] + tail == tail;
    } else {
      var n', rest := n + BlobMessages(blobs[0]), blobs[1..];
      var after := WriteAll(write, n', rest) + tail;
      assert WriteAll(write, n, blobs) + tail == write(n, blobs[0]) + after;
      assert ReadsBack(read, write, blobs[0]);
      AllRoundTrip(read, write, n', rest, tail);
    }
  }

  function BlobReader(c: Cipher, cap: nat): (nat, Bytes) -> BlobRead {
    (n: nat, stream: Bytes) => ReadBlob(c, n, stream, cap)
  }

  function BlobWriter(c: Cipher): (nat, Bytes) -> Bytes {
    (n: nat, blob: Bytes) => Blob(c, n, blob)
  }

  /** Round trip of every list of blobs within the reader's cap, written back to back. */
  lemma BlobStreamRoundTrip(c: Cipher, n: nat, blobs: seq<Bytes>, tail: Bytes, cap: nat)
    requires Lawful(c) && forall i :: 0 <= i < |blobs| ==> |blobs[i]| <= cap && |blobs[i]| < U32_LIMIT
    ensures ReadAll(BlobReader(c, cap), n, WriteAll(BlobWriter(c), n, blobs) + tail, |blobs|) == AllGot(blobs, tail)
  {
    var read, write := BlobReader(c, cap), BlobWriter(c);
    forall i | 0 <= i < |blobs| ensures ReadsBack(read, write, blobs[i]) {
      forall m: nat, t: Bytes
        ensures read(m, write(m, blobs[i]) + t) == BlobGot(blobs[i], t, m + BlobMessages(blobs[i]))
      {
        BlobRoundTrip(c, m, blobs[i], t, cap);
      }
    }
    AllRoundTrip(read, write, n, blobs, tail);
  }

  /** On any stream, honest or not, a blob that is returned has exactly the length its header declares. */
  lemma {:induction false} ChunksAreExact(c: Cipher, n: nat, stream: Bytes, out: Bytes, total: nat)
    requires |out| <= total
    ensures var r := ReadChunks(c, n, stream, out, total);
            r.BlobGot? ==> |r.blob| == total && out <= r.blob && |r.rest| <= |stream|
    decreases total - |out|
  {
    if |out| < total && ReadMessage(c, n, stream).Got? {
      var got := ReadMessage(c, n, stream);
      if |got.msg| != 0 && |out| + |got.msg| <= total {
        ChunksAreExact(c, n + 1, got.rest, out + got.msg, total);
      }
    }
  }

  lemma BlobIsExact(c: Cipher, n: nat, stream: Bytes, cap: nat)
    ensures var r := ReadBlob(c, n, stream, cap);
            r.BlobGot? ==>
              && ReadMessage(c, n, stream).Got?
              && |r.blob| == FromBigEndian(ReadMessage(c, n, stream).msg) <= cap
              && |r.rest| < |stream|
  {
    if ReadBlob(c, n, stream, cap).BlobGot? {
      var got := ReadMessage(c, n, stream);
      ChunksAreExact(c, n + 1, got.rest, [], FromBigEndian(got.msg));
    }
  }

  // ------------------------------------------------------------- broken streams

  /** As much of `bytes` as a stream takes that breaks after `room` bytes. */
  function Cut(bytes: Bytes, room: nat): (cut: Bytes)
    ensures cut <= bytes && |cut| == Min(|bytes|, room)
  {
    bytes[..Min(|bytes|, room)]
  }

  lemma CutConcat(a: Bytes, b: Bytes, room: nat)
    ensures Cut(a + b, room) == Cut(a, room) + Cut(b, Monus(room, |a|))
  {
  }

  /** A message that is cut anywhere reads as the end of the stream. */
  lemma CutMessageEnds(c: Cipher, n: nat, msg: Bytes, room: nat)
    requires Lawful(c) && 1 <= |msg| <= NOISE_CHUNK && room < |Message(c, n, msg)|
    ensures ReadMessage(c, n, Cut(Message(c, n, msg), room)) == Failed(StreamEnded)
  {
    var sealed, stream := c.seal(n, msg), Cut(Message(c, n, msg), room);
    if |stream| < 2 {
    } else {
      Pow256Widths();
      BigEndianRoundTrip(|sealed|, 2);
      assert stream[..2] == ToBigEndian(|sealed|, 2);
    }
  }

  lemma {:induction false} CutChunksEnd(c: Cipher, n: nat, blob: Bytes, out: Bytes, total: nat, room: nat)
    requires Lawful(c) && total == |out| + |blob| && room < |Chunks(c, n, blob)|
    ensures ReadChunks(c, n, Cut(Chunks(c, n, blob), room), out, total) == BlobFailed(StreamEnded)
    decreases |blob|
  {
    var k := Min(|blob|, NOISE_CHUNK);
    var first, later := Message(c, n, blob[..k]), Chunks(c, n + 1, blob[k..]);
    CutConcat(first, later, room);
    if room < |first| {
      CutMessageEnds(c, n, blob[..k], room);
      assert Cut(later, 0) == [];
      assert Cut(first, room) + [] == Cut(first, room);
    } else {
      var rest := Cut(later, room - |first|);
      assert Cut(first, room) == first;
      MessageRoundTrip(c, n, blob[..k], rest);
      ReadChunksStep(c, n, first + rest, out, total, blob[..k], rest);
      CutChunksEnd(c, n + 1, blob[k..], out + blob[..k], total, room - |first|);
    }
  }

  /** A blob whose writer broke off is never returned in part: the reader finds the end of the stream. */
  lemma CutBlobEnds(c: Cipher, n: nat, blob: Bytes, cap: nat, room: nat)
    requires Lawful(c) && |blob| <= cap && |blob| < U32_LIMIT && room < |Blob(c, n, blob)|
    ensures ReadBlob(c, n, Cut(Blob(c, n, blob), room), cap) == BlobFailed(StreamEnded)
  {
    var header := ToBigEndian(|blob|, 4);
    var first, later := Message(c, n, header), Chunks(c, n + 1, blob);
    CutConcat(first, later, room);
    if room < |first| {
      CutMessageEnds(c, n, header, room);
      assert Cut(first, room) + Cut(later, 0) == Cut(first, room);
    } else {
      var rest := Cut(later, room - |first|);
      assert Cut(first, room) == first;
      Pow256Widths();
      BigEndianRoundTrip(|blob|, 4);
      MessageRoundTrip(c, n, header, rest);
      CutChunksEnd(c, n + 1, blob, [], |blob|, room - |first|);
    }
  }

  // ------------------------------------------------------------------ frames

  /** The packets that the peer's frame loop reads before the stream ends or an opening fails. */
  function ReadFrames(c: Cipher, n: nat, stream: Bytes): seq<Bytes>
    decreases |stream|
  {
    if |stream| < FRAME_LEN then []
    else
      match c.open(n, stream[..FRAME_LEN])
      case None => []
      case Some(packet) => [packet] + ReadFrames(c, n + 1, stream[FRAME_LEN..])
  }

  function Frames(c: Cipher, n: nat, packets: seq<Bytes>): Bytes
    decreases |packets|
  {
    if packets == [] then [] else c.seal(n, packets[0]) + Frames(c, n + 1, packets[1..])
  }

  /** Whole frames followed by less than a frame read back as exactly their packets. */
  lemma {:induction false} FramesRoundTrip(c: Cipher, n: nat, packets: seq<Bytes>, partial: Bytes)
    requires Lawful(c) && |partial| < FRAME_LEN
    requires forall i :: 0 <= i < |packets| ==> |packets[i]| == PACKET_SIZE
    ensures ReadFrames(c, n, Frames(c, n, packets) + partial) == packets
    decreases |packets|
  {
    if packets == [] {
      assert [] + partial == partial;
    } else {
      var frame, after := c.seal(n, packets[0]), Frames(c, n + 1, packets[1..]) + partial;
      var stream := Frames(c, n, packets) + partial;
      assert stream == frame + after;
      assert stream[..FRAME_LEN] == frame && stream[FRAME_LEN..] == after;
      FramesRoundTrip(c, n + 1, packets[1..], partial);
    }
  }

  lemma {:induction false} FramesAppend(c: Cipher, n: nat, packets: seq<Bytes>, packet: Bytes)
    ensures Frames(c, n, packets + [packet]) == Frames(c, n, packets) + c.seal(n + |packets|, packet)
    decreases |packets|
  {
    if packets == [] {
      assert [] + [packet] == [packet] && [packet][1..] == [];
    } else {
      assert (packets + [packet])[1..] == packets[1..] + [packet];
      FramesAppend(c, n + 1, packets[1..], packet);
    }
  }
}
