/** The two ends of a Noise stream as they run: counters, buffers and streams updated in place. */
module NoiseStreams {
  import opened Prelude
  import opened NoiseFraming

  /** So far nothing broke: the wire and what lies ahead make up the whole, and the room is accounted for. */
  ghost predicate OnTrack(wire: Bytes, room: nat, ahead: Bytes, start: Bytes, total: Bytes, atFirst: nat) {
    wire + ahead == start + total && |wire| + room == |start| + atFirst && start <= wire
  }

  /** One message more: it goes out as a whole, or the wire holds what there was room for of the whole. */
  lemma OneMessage(wire: Bytes, room: nat, sent: Bytes, later: Bytes, ahead: Bytes, start: Bytes, total: Bytes,
                   atFirst: nat)
    requires OnTrack(wire, room, ahead, start, total, atFirst) && ahead == sent + later
    ensures |sent| <= room ==> OnTrack(wire + Cut(sent, room), Monus(room, |sent|), later, start, total, atFirst)
    ensures |sent| > room ==> wire + Cut(sent, room) == start + Cut(total, atFirst) && |total| > atFirst
  {
    var whole := start + total;
    if |sent| <= room {
      assert Cut(sent, room) == sent;
      assert wire + sent + later == whole;
    } else {
      assert wire + Cut(sent, room) == whole[..|wire| + room];
      assert start + Cut(total, atFirst) == whole[..|start| + atFirst];
    }
  }

  lemma TrackEnds(wire: Bytes, room: nat, start: Bytes, total: Bytes, atFirst: nat)
    requires OnTrack(wire, room, [], start, total, atFirst)
    ensures wire == start + Cut(total, atFirst) && |total| <= atFirst
  {
    assert Cut(total, atFirst) == total;
  }

  lemma ChunksUnfold(c: Cipher, n: nat, rest: Bytes, k: nat)
    requires rest != [] && k == Min(|rest|, NOISE_CHUNK)
    ensures Chunks(c, n, rest) == Message(c, n, rest[..k]) + Chunks(c, n + 1, rest[k..])
    ensures ChunkCount(|rest|) == 1 + ChunkCount(|rest[k..]|)
  {
  }

  lemma HeaderThenChunks(start: Bytes, first: Bytes, later: Bytes, room: nat)
    ensures |first| > room ==> start + Cut(first, room) == start + Cut(first + later, room)
    ensures |first| <= room ==>
              start + Cut(first, room) + Cut(later, room - |first|) == start + Cut(first + later, room)
  {
    CutConcat(first, later, room);
  }

  /** The sending end of a stream that takes `room` more bytes before it breaks. */
  class NoiseWriter {
    const cipher: Cipher
    var nonce: nat
    var wire: Bytes
    var room: nat

    constructor (cipher: Cipher, room: nat)
      ensures this.cipher == cipher && nonce == 0 && wire == [] && this.room == room
    {
      this.cipher, nonce, wire, this.room := cipher, 0, [], room;
    }

    /** `write_all`: everything, or what the stream took before it broke. */
    method Put(bytes: Bytes) returns (ok: bool)
      modifies this`wire, this`room
      ensures wire == old(wire) + Cut(bytes, old(room)) && room == Monus(old(room), |bytes|)
      ensures ok <==> |bytes| <= old(room)
    {
      ok := |bytes| <= room;
      wire := wire + Cut(bytes, room);
      room := Monus(room, |bytes|);
    }

    /** One sealed message behind its length; the counter advances even if the stream breaks. */
    method WriteOne(msg: Bytes) returns (error: Option<Failure>)
      requires Lawful(cipher)
      modifies this
      ensures !Sealable(msg) ==>
                error == Some(NoiseFailed) && nonce == old(nonce) && wire == old(wire) && room == old(room)
      ensures Sealable(msg) ==>
                var sent := Message(cipher, old(nonce), msg);
                && nonce == old(nonce) + 1 && wire == old(wire) + Cut(sent, old(room))
                && room == Monus(old(room), |sent|)
                && error == if |sent| <= old(room) then None else Some(StreamBroken)
    {
      if |msg| + NOISE_TAG_LEN > NOISE_MAX_MESSAGE {
        return Some(NoiseFailed);
      }
      var buf := cipher.seal(nonce, msg);
      nonce := nonce + 1;
      var prefix := ToBigEndian(|buf|, 2);
      CutConcat(prefix, buf, room);
      var ok := Put(prefix);
      if !ok {
        return Some(StreamBroken);
      }
      ok := Put(buf);
      error := if ok then None else Some(StreamBroken);
    }

    /** The chunks of a blob, up to where the stream breaks. */
    method WriteChunks(blob: Bytes) returns (error: Option<Failure>)
      requires Lawful(cipher)
      modifies this
      ensures var sent := Chunks(cipher, old(nonce), blob);
              && wire == old(wire) + Cut(sent, old(room))
              && error == (if |sent| <= old(room) then None else Some(StreamBroken))
              && (error.None? ==> nonce == old(nonce) + ChunkCount(|blob|))
    {
      var rest := blob;
      ghost var total := Chunks(cipher, nonce, blob);
      ghost var start, atFirst, ahead := wire, room, total;
      while rest != []
        invariant nonce + ChunkCount(|rest|) == old(nonce) + ChunkCount(|blob|)
        invariant ahead == Chunks(cipher, nonce, rest)
        invariant OnTrack(wire, room, ahead, start, total, atFirst)
        decreases |rest|
      {
        var k := Min(|rest|, NOISE_CHUNK);
        var chunk, tail := rest[..k], rest[k..];
        ghost var next := nonce + 1;
        ghost var sent, later := Message(cipher, nonce, chunk), Chunks(cipher, next, tail);
        ChunksUnfold(cipher, nonce, rest, k);
        OneMessage(wire, room, sent, later, ahead, start, total, atFirst);
        error := WriteOne(chunk);
        assert nonce == next;
        if error.Some? {
          return;
        }
        rest, ahead := tail, later;
      }
      TrackEnds(wire, room, start, total, atFirst);
      error := None;
    }

    /** A header message and the chunks behind it. */
    method WriteFramed(header: Bytes, blob: Bytes) returns (error: Option<Failure>)
      requires Lawful(cipher) && Sealable(header)
      modifies this
      ensures var sent := Message(cipher, old(nonce), header) + Chunks(cipher, old(nonce) + 1, blob);
              && wire == old(wire) + Cut(sent, old(room))
              && error == (if |sent| <= old(room) then None else Some(StreamBroken))
              && (error.None? ==> nonce == old(nonce) + BlobMessages(blob))
    {
      ghost var start, space, next := wire, room, nonce + 1;
      ghost var first, later := Message(cipher, nonce, header), Chunks(cipher, next, blob);
      HeaderThenChunks(start, first, later, space);
      error := WriteOne(header);
      if error.Some? {
        return;
      }
      assert nonce == next && wire == start + Cut(first, space) && room == space - |first|;
      error := WriteChunks(blob);
      assert wire == start + Cut(first, space) + Cut(later, space - |first|);
    }

    /** Header and chunks; a blob over `maxFrame` is refused before anything is sent. */
    method WriteBlob(blob: Bytes, maxFrame: nat) returns (error: Option<Failure>)
      requires Lawful(cipher)
      modifies this
      ensures |blob| > maxFrame ==>
                error == Some(BadHandshake) && nonce == old(nonce) && wire == old(wire) && room == old(room)
      ensures |blob| <= maxFrame ==>
                var sent := Blob(cipher, old(nonce), blob);
                && wire == old(wire) + Cut(sent, old(room))
                && error == (if |sent| <= old(room) then None else Some(StreamBroken))
                && (error.None? ==> nonce == old(nonce) + BlobMessages(blob))
    {
      if |blob| > maxFrame {
        return Some(BadHandshake);
      }
      error := WriteFramed(ToBigEndian(|blob|, 4), blob);
    }
  }

  /** A growable buffer that remembers the largest size it ever had. */
  class Buffer {
    var data: Bytes
    ghost var peak: nat

    ghost predicate Valid()
      reads this
    {
      |data| <= peak
    }

    constructor ()
      ensures Valid() && data == [] && peak == 0
    {
      data, peak := [], 0;
    }

    method Resize(size: nat)
      requires Valid() && |data| <= size
      modifies this
      ensures Valid() && data == old(data) + Zeros(size - |old(data)|) && peak == Max(old(peak), size)
    {
      data := data + Zeros(size - |data|);
      peak := Max(peak, |data|);
    }

    /** Puts `bytes` at `start` and cuts the buffer after them. */
    method Fill(start: nat, bytes: Bytes)
      requires Valid() && start + |bytes| <= |data|
      modifies this
      ensures Valid() && data == old(data)[..start] + bytes && peak == old(peak)
    {
      data := data[..start] + bytes;
    }
  }

  datatype BlobResult = BlobOk(blob: Bytes) | BlobErr(failure: Failure)

  /** The receiving end; `stream` is what is still unread, and the end of it is the end of the stream. */
  class NoiseReader {
    const cipher: Cipher
    var nonce: nat
    var stream: Bytes

    constructor (cipher: Cipher, stream: Bytes)
      ensures this.cipher == cipher && nonce == 0 && this.stream == stream
    {
      this.cipher, nonce, this.stream := cipher, 0, stream;
    }

    /** Appends one message to `out`, which grows to the sealed size before it is cut back. */
    method ReadOne(out: Buffer) returns (error: Option<Failure>)
      requires Lawful(cipher) && out.Valid()
      modifies this, out
      ensures out.Valid()
      ensures out.peak <= Max(old(out.peak), |old(out.data)| + NOISE_CHUNK + NOISE_TAG_LEN)
      ensures match ReadMessage(cipher, old(nonce), old(stream))
              case Failed(f) => error == Some(f)
              case Got(msg, rest) =>
                error.None? && out.data == old(out.data) + msg && stream == rest && nonce == old(nonce) + 1
    {
      if |stream| < 2 {
        return Some(StreamEnded);
      }
      var len := FromBigEndian(stream[..2]);
      if !(NOISE_TAG_LEN + 1 <= len <= NOISE_CHUNK + NOISE_TAG_LEN) {
        return Some(BadHandshake);
      }
      if |stream| < 2 + len {
        return Some(StreamEnded);
      }
      var sealed := stream[2..2 + len];
      var start := |out.data|;
      out.Resize(start + len);
      match cipher.open(nonce, sealed)
      case None => error := Some(NoiseFailed);
      case Some(msg) =>
        out.Fill(start, msg);
        stream := stream[2 + len..];
        nonce := nonce + 1;
        error := None;
    }

    /**
     Reads one blob. On every stream it terminates with exactly what `ReadBlob` gives, and
     the blob's buffer (whose largest size is `peak`) never holds more than `cap` and 32783 bytes.
     */
    method ReadBlobCapped(cap: nat) returns (r: BlobResult, ghost peak: nat)
      requires Lawful(cipher)
      modifies this
      ensures match ReadBlob(cipher, old(nonce), old(stream), cap)
              case BlobFailed(f) => r == BlobErr(f)
              case BlobGot(blob, rest, n) => r == BlobOk(blob) && stream == rest && nonce == n
      ensures peak <= cap + 32783
    {
      var header := new Buffer();
      var error := ReadOne(header);
      peak := 0;
      if error.Some? {
        return BlobErr(error.value), 0;
      }
      assert header.data == ReadMessage(cipher, old(nonce), old(stream)).msg;
      if |header.data| != 4 {
        return BlobErr(BadHandshake), 0;
      }
      var total := FromBigEndian(header.data);
      if total > cap {
        return BlobErr(BadHandshake), 0;
      }
      var out := new Buffer();
      while |out.data| < total
        invariant fresh(out) && out.Valid() && |out.data| <= total
        invariant out.peak <= cap + 32783
        invariant ReadChunks(cipher, nonce, stream, out.data, total) == ReadBlob(cipher, old(nonce), old(stream), cap)
        decreases total - |out.data|
      {
        var before := |out.data|;
        error := ReadOne(out);
        if error.Some? {
          return BlobErr(error.value), out.peak;
        }
        if |out.data| <= before || |out.data| > total {
          return BlobErr(BadHandshake), out.peak;
        }
      }
      r, peak := BlobOk(out.data), out.peak;
    }
  }
}
