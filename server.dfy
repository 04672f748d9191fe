/**
 * The detector server's handling of one accepted connection: it takes
 * camera frames off the byte stream with the reassembly loop, runs the
 * detector on each and answers each frame with one reply, until the peer
 * closes the connection; then it goes back to accepting.
 */
module Server {
  import opened Basics
  import opened Framing
  import opened Detection

  /**
   * `chunks` is what successive `recv(4096)` calls return before the peer
   * closes; `detect` stands for decoding the image and running the model on
   * it. The server answers every complete frame, in order, and a partial
   * frame cut off by the close is dropped.
   */
  method ServeConnection(chunks: seq<Chunk>, detect: seq<uint8> -> seq<Box>) returns (frames: seq<seq<uint8>>, replies: seq<Reply>)
    ensures frames == Deframe(Flatten(chunks))
    ensures |replies| == |frames|
    ensures forall i :: 0 <= i < |frames| ==> replies[i] == ServerReply(detect(frames[i]))
  {
    var buffer: seq<uint8> := [];
    var pending := chunks;
    frames, replies := [], [];
    assert buffer + Flatten(pending) == Flatten(chunks);
    while true
      invariant frames + Deframe(buffer + Flatten(pending)) == Deframe(Flatten(chunks))
      invariant |replies| == |frames|
      invariant forall i :: 0 <= i < |frames| ==> replies[i] == ServerReply(detect(frames[i]))
      decreases |buffer + Flatten(pending)|
    {
      ghost var stream := buffer + Flatten(pending);
      var frame, rest, used := ReceiveFrame(buffer, pending);
      if frame.None? {
        // ConnectionError: the connection is closed and the server accepts again
        assert Deframe(stream) == [];
        assert frames + [] == frames;
        return;
      }
      ghost var remaining := rest + Flatten(pending[used..]);
      assert SplitFrame(stream) == Some(Split(frame.value, remaining));
      DeframeTakesFrame(stream, frame.value, remaining);
      assert frames + Deframe(stream) == (frames + [frame.value]) + Deframe(remaining);
      var targets := ListTargets(detect(frame.value));
      frames := frames + [frame.value];
      replies := replies + [Parsed(Some(TARGETS_STATUS), targets)];
      buffer := rest;
      pending := pending[used..];
    }
  }

  /** Taking one frame off a stream leaves the frames of what follows it. */
  lemma DeframeTakesFrame(s: seq<uint8>, payload: seq<uint8>, rest: seq<uint8>)
    requires SplitFrame(s) == Some(Split(payload, rest))
    ensures Deframe(s) == [payload] + Deframe(rest)
    ensures |rest| < |s|
  {
  }

  /**
   * Whatever way the network cuts the client's stream of encoded frames
   * into chunks, the server receives exactly the frames the client sent.
   */
  lemma ChunkingDoesNotMatter(chunks: seq<Chunk>, sent: seq<seq<uint8>>)
    requires forall i :: 0 <= i < |sent| ==> |sent[i]| < FRAME_LIMIT
    requires Flatten(chunks) == EncodeAll(sent)
    ensures Deframe(Flatten(chunks)) == sent
  {
    assert EncodeAll(sent) + [] == EncodeAll(sent);
    DeframeEncodeAll(sent, []);
  }
}
