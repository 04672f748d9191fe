/**
 * Length-prefixed framing between the camera client and the detector server.
 *
 * Every message, in both directions, is a four-byte big-endian unsigned
 * length followed by that many payload bytes. The server reassembles frames
 * from a byte buffer that it grows with whatever each `recv(4096)` returns,
 * so a frame may arrive split over several chunks and one chunk may carry
 * the end of one frame and the start of the next.
 */
module Framing {
  import opened Basics

  newtype uint8 = x: int | 0 <= x < 256

  /** One more than the largest length a four-byte header can carry. */
  const FRAME_LIMIT: int := 0x1_0000_0000

  /** What `recv(4096)` returns on a connection that is still open: never empty. */
  type Chunk = c: seq<uint8> | 0 < |c| <= 4096 witness [0]

  /** `struct.pack(">L", n)`: the four big-endian bytes of n. */
  function PackLength(n: nat): (b: seq<uint8>)
    requires n < FRAME_LIMIT
    ensures |b| == 4
    ensures b[0] as int * 0x100_0000 + b[1] as int * 0x1_0000 + b[2] as int * 0x100 + b[3] as int == n
  {
    var q1 := n / 0x100;
    var q2 := q1 / 0x100;
    var q3 := q2 / 0x100;
    [q3 as uint8, (q2 % 0x100) as uint8, (q1 % 0x100) as uint8, (n % 0x100) as uint8]
  }

  /** `struct.unpack(">L", b[:4])[0]`: the first four bytes read as a big-endian number. */
  function UnpackLength(b: seq<uint8>): (n: nat)
    requires |b| >= 4
    ensures n < FRAME_LIMIT
  {
    var hi := b[0] as int * 0x100 + b[1] as int;
    assert hi < 0x1_0000;
    var mid := hi * 0x100 + b[2] as int;
    assert mid < 0x100_0000;
    mid * 0x100 + b[3] as int
  }

  /** Reading back a packed length gives the length. */
  lemma UnpackPack(n: nat)
    requires n < FRAME_LIMIT
    ensures UnpackLength(PackLength(n)) == n
  {
    var q1 := n / 0x100;
    var q2 := q1 / 0x100;
    var q3 := q2 / 0x100;
    assert n == q1 * 0x100 + n % 0x100;
    assert q1 == q2 * 0x100 + q1 % 0x100;
    assert q2 == q3 * 0x100 + q2 % 0x100;
  }

  /** Packing a header's value gives back the header's four bytes. */
  lemma PackUnpack(b: seq<uint8>)
    requires |b| == 4
    ensures PackLength(UnpackLength(b)) == b
  {
    var hi := b[0] as int * 0x100 + b[1] as int;
    var mid := hi * 0x100 + b[2] as int;
    var n := mid * 0x100 + b[3] as int;
    assert n / 0x100 == mid && n % 0x100 == b[3] as int;
    assert mid / 0x100 == hi && mid % 0x100 == b[2] as int;
    assert hi / 0x100 == b[0] as int && hi % 0x100 == b[1] as int;
  }

  /** `struct.pack(">L", len(p)) + p`, the encoder used for camera frames and for detector replies. */
  function EncodeFrame(p: seq<uint8>): (f: seq<uint8>)
    requires |p| < FRAME_LIMIT
    ensures |f| == 4 + |p|
    ensures UnpackLength(f) == |p|
    ensures f[4..] == p
  {
    UnpackPack(|p|);
    PackLength(|p|) + p
  }

  /** A frame taken off the front of a byte stream, and the bytes that follow it. */
  datatype Split = Split(payload: seq<uint8>, rest: seq<uint8>)

  /**
   * The reader's view of a byte stream: once four header bytes and the
   * payload they announce are present, the payload and the remaining bytes;
   * None while the stream is still too short.
   */
  function SplitFrame(s: seq<uint8>): (r: Option<Split>)
    ensures r.Some? <==> |s| >= 4 && |s| >= 4 + UnpackLength(s)
    ensures r.Some? ==> |r.value.payload| == UnpackLength(s)
  {
    if |s| < 4 then None
    else
      var n := UnpackLength(s);
      if |s| < 4 + n then None else Some(Split(s[4..4 + n], s[4 + n..]))
  }

  /** A split loses no bytes: the header, the payload and the rest make up the stream. */
  lemma SplitFrameParts(s: seq<uint8>)
    requires SplitFrame(s).Some?
    ensures s == s[..4] + SplitFrame(s).value.payload + SplitFrame(s).value.rest
  {
    var n := UnpackLength(s);
    assert s == s[..4] + s[4..4 + n] + s[4 + n..];
  }

  /** Round trip: an encoded frame followed by any bytes splits into that frame and those bytes. */
  lemma SplitEncodeFrame(p: seq<uint8>, rest: seq<uint8>)
    requires |p| < FRAME_LIMIT
    ensures SplitFrame(EncodeFrame(p) + rest) == Some(Split(p, rest))
  {
    var f := EncodeFrame(p);
    var s := f + rest;
    assert s[..4] == f[..4];
    assert UnpackLength(s) == UnpackLength(f);
    assert s[4..4 + |p|] == p;
    assert s[4 + |p|..] == rest;
  }

  /** Every complete frame of a byte stream, in order; a trailing partial frame is not one. */
  function Deframe(s: seq<uint8>): (fs: seq<seq<uint8>>)
    // there is a frame to take exactly when the stream begins with a whole one
    ensures fs == [] <==> SplitFrame(s).None?
    // every frame costs its four header bytes and its payload
    ensures 4 * |fs| + TotalLength(fs) <= |s|
    decreases |s|
  {
    match SplitFrame(s)
    case None => []
    case Some(sp) =>
      SplitFrameParts(s);
      [sp.payload] + Deframe(sp.rest)
  }

  /** The number of bytes in all of `ps` together. */
  function TotalLength(ps: seq<seq<uint8>>): nat
  {
    if ps == [] then 0 else |ps[0]| + TotalLength(ps[1..])
  }

  /** The byte stream a sender produces by encoding each payload in turn. */
  function EncodeAll(ps: seq<seq<uint8>>): (s: seq<uint8>)
    requires forall i :: 0 <= i < |ps| ==> |ps[i]| < FRAME_LIMIT
  {
    if ps == [] then [] else EncodeFrame(ps[0]) + EncodeAll(ps[1..])
  }

  /**
   * Round trip for a whole connection: the frames a reader takes from a
   * stream of encoded payloads, ended by bytes too few for another frame,
   * are exactly those payloads.
   */
  lemma {:induction false} DeframeEncodeAll(ps: seq<seq<uint8>>, tail: seq<uint8>)
    requires forall i :: 0 <= i < |ps| ==> |ps[i]| < FRAME_LIMIT
    requires SplitFrame(tail) == None
    ensures Deframe(EncodeAll(ps) + tail) == ps
  {
    if ps != [] {
      var rest := EncodeAll(ps[1..]) + tail;
      assert EncodeAll(ps) + tail == EncodeFrame(ps[0]) + rest;
      SplitEncodeFrame(ps[0], rest);
      DeframeEncodeAll(ps[1..], tail);
    }
  }

  /** The bytes carried by a sequence of received chunks, in order. */
  function Flatten(cs: seq<Chunk>): seq<uint8>
  {
    if cs == [] then [] else cs[0] + Flatten(cs[1..])
  }

  /** The unread chunks from `k` on are chunk `k` followed by those after it. */
  lemma FlattenFrom(cs: seq<Chunk>, k: nat)
    requires k < |cs|
    ensures Flatten(cs[k..]) == cs[k] + Flatten(cs[k + 1..])
  {
    assert cs[k..][1..] == cs[k + 1..];
  }

  /** A header followed by fewer payload bytes than it announces is not yet a frame. */
  lemma SplitPartial(stream: seq<uint8>, header: seq<uint8>, payload: seq<uint8>)
    requires stream == header + payload
    requires |header| == 4 && |payload| < UnpackLength(header)
    ensures SplitFrame(stream) == None
  {
    assert UnpackLength(stream) == UnpackLength(header);
  }

  /** A header followed by at least the payload it announces splits after that payload. */
  lemma SplitComplete(stream: seq<uint8>, header: seq<uint8>, payload: seq<uint8>, more: seq<uint8>)
    requires stream == header + payload + more
    requires |header| == 4 && UnpackLength(header) <= |payload|
    ensures var n := UnpackLength(header);
      SplitFrame(stream) == Some(Split(payload[..n], payload[n..] + more))
  {
    var n := UnpackLength(header);
    assert UnpackLength(stream) == n;
    assert stream[4..4 + n] == payload[..n];
    assert stream[4 + n..] == payload[n..] + more;
  }

  /**
   * After both waits the stream is the header, the payload wait's buffer
   * and the bytes still unread.
   */
  lemma Regroup(stream: seq<uint8>, buf: seq<uint8>, pending: seq<uint8>, payload: seq<uint8>, unread: seq<uint8>)
    requires |buf| >= 4
    requires buf + pending == stream
    requires payload + unread == buf[4..] + pending
    ensures stream == buf[..4] + payload + unread
  {
    calc {
      stream;
      buf + pending;
      { assert buf == buf[..4] + buf[4..]; }
      buf[..4] + (buf[4..] + pending);
      buf[..4] + (payload + unread);
      buf[..4] + payload + unread;
    }
  }

  /**
   * One of the reassembly loop's waits: appends chunks to `start` until it
   * holds `need` bytes. `closed` says the connection closed first, after
   * every chunk was read.
   */
  method FillTo(start: seq<uint8>, chunks: seq<Chunk>, need: nat) returns (buf: seq<uint8>, used: nat, closed: bool)
    ensures used <= |chunks|
    // no byte is lost or reordered: the buffer and the unread chunks carry the same bytes as before
    ensures buf + Flatten(chunks[used..]) == start + Flatten(chunks)
    ensures closed <==> |buf| < need
    ensures closed ==> used == |chunks|
    // it stops at the first chunk that completes the wait
    ensures used == 0 ==> buf == start
    ensures used > 0 ==> |buf| - |chunks[used - 1]| < need
  {
    buf := start;
    used := 0;
    while |buf| < need
      invariant used <= |chunks|
      invariant buf + Flatten(chunks[used..]) == start + Flatten(chunks)
      invariant used == 0 ==> buf == start
      invariant used > 0 ==> |buf| - |chunks[used - 1]| < need
    {
      if used == |chunks| {
        // recv returned b"": ConnectionError
        return buf, used, true;
      }
      FlattenFrom(chunks, used);
      assert (buf + chunks[used]) + Flatten(chunks[used + 1..]) == buf + Flatten(chunks[used..]);
      buf := buf + chunks[used];
      used := used + 1;
    }
    closed := false;
  }

  /**
   * One pass of the server's reassembly loop. `buffer` holds the bytes left
   * over from earlier frames and `chunks` what the following `recv(4096)`
   * calls return before the peer closes the connection (a closed connection
   * makes `recv` return no bytes). The loop reads chunks until four header
   * bytes are buffered, decodes the length, reads chunks until that many
   * payload bytes are buffered, and keeps the surplus for the next frame.
   * `used` is the number of chunks it read.
   */
  method ReceiveFrame(buffer: seq<uint8>, chunks: seq<Chunk>) returns (frame: Option<seq<uint8>>, rest: seq<uint8>, used: nat)
    ensures used <= |chunks|
    ensures frame.None? <==> SplitFrame(buffer + Flatten(chunks)) == None
    // the connection closed before a whole frame arrived: every chunk was read
    ensures frame.None? ==> used == |chunks|
    // a frame was taken: the payload named by the header, with the unread chunks after the kept bytes
    ensures frame.Some? ==>
      var sp := SplitFrame(buffer + Flatten(chunks)).value;
      frame.value == sp.payload && rest + Flatten(chunks[used..]) == sp.rest
    // no chunk was read that the frame did not need: the kept bytes all come from the last chunk read
    ensures frame.Some? && used > 0 ==> |rest| < |chunks[used - 1]|
  {
    var buf, headerChunks, closed := FillTo(buffer, chunks, 4);
    if closed {
      assert chunks[headerChunks..] == [];
      return None, [], headerChunks;
    }
    var n := UnpackLength(buf);
    ghost var header := buf[..4];
    assert UnpackLength(header) == n;
    var payload, payloadChunks, closed' := FillTo(buf[4..], chunks[headerChunks..], n);
    used := headerChunks + payloadChunks;
    assert chunks[headerChunks..][payloadChunks..] == chunks[used..];
    ghost var stream := buffer + Flatten(chunks);
    ghost var unread := Flatten(chunks[used..]);
    Regroup(stream, buf, Flatten(chunks[headerChunks..]), payload, unread);
    if closed' {
      assert chunks[used..] == [];
      SplitPartial(stream, header, payload);
      return None, [], used;
    }
    frame := Some(payload[..n]);
    rest := payload[n..];
    SplitComplete(stream, header, payload, unread);
    if payloadChunks > 0 {
      assert chunks[headerChunks..][payloadChunks - 1] == chunks[used - 1];
    }
  }
}
