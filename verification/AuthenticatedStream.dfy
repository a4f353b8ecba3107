/** Splitting the admission frame off a chunked stream
    (packages/core/src/authenticated-stream.js). */
module AuthenticatedStream {
  import opened Bytes
  import opened Sequences
  import opened PtyFrames
  import Admission

  /** An async iterator over the chunks of a stream. */
  class ChunkIterator {
    var chunks: seq<seq<byte>>

    constructor (chunks: seq<seq<byte>>)
      ensures this.chunks == chunks
    {
      this.chunks := chunks;
    }

    method Next() returns (done: bool, value: seq<byte>)
      modifies this
      ensures done <==> old(chunks) == []
      ensures done ==> chunks == []
      ensures !done ==> value == old(chunks)[0] && chunks == old(chunks)[1..]
    {
      if chunks == [] {
        return true, [];
      }
      value := chunks[0];
      chunks := chunks[1..];
      done := false;
    }
  }

  /** However the stream is chunked, the prefix is its first `length` bytes and the
      remainder with the unread chunks is the rest; it fails exactly when the
      stream is too short. */
  method ConsumePrefix(it: ChunkIterator, length: nat) returns (ok: bool, prefix: seq<byte>, remainder: seq<byte>)
    modifies it
    ensures ok <==> |old(Flatten(it.chunks))| >= length
    ensures ok ==> prefix == old(Flatten(it.chunks))[..length]
    ensures ok ==> remainder + Flatten(it.chunks) == old(Flatten(it.chunks))[length..]
    ensures |it.chunks| <= old(|it.chunks|)
  {
    ghost var all := Flatten(it.chunks);
    var chunks: seq<seq<byte>> := [];
    var received := 0;
    while received < length
      invariant received == |Flatten(chunks)| && Flatten(chunks) + Flatten(it.chunks) == all
      invariant |it.chunks| <= old(|it.chunks|)
      decreases |it.chunks|
    {
      var done, chunk := it.Next();
      if done {
        return false, [], [];
      }
      Assoc(Flatten(chunks), chunk, Flatten(it.chunks));
      if |chunk| == 0 {
        continue;
      }
      FlattenSnoc(chunks, chunk);
      chunks := chunks + [chunk];
      received := received + |chunk|;
    }
    var combined := Combine(chunks);
    assert all[..length] == combined[..length];
    assert all[length..] == combined[length..] + Flatten(it.chunks);
    return true, combined[..length], combined[length..];
  }

  /** The copy loop that joins the chunks. */
  method Combine(chunks: seq<seq<byte>>) returns (combined: seq<byte>)
    ensures combined == Flatten(chunks)
  {
    combined := [];
    for i := 0 to |chunks|
      invariant combined == Flatten(chunks[..i])
    {
      FlattenSnoc(chunks[..i], chunks[i]);
      assert chunks[..i] + [chunks[i]] == chunks[..i + 1];
      combined := combined + chunks[i];
    }
    assert chunks[..|chunks|] == chunks;
  }

  /** The stream handed to the application after authentication. */
  class WrappedStream {
    const inner: ChunkIterator
    var pending: seq<byte>
    var iterated: bool

    /** Bytes still to be yielded. */
    function Rest(): (r: seq<byte>)
      reads this, inner
    {
      pending + Flatten(inner.chunks)
    }

    constructor (inner: ChunkIterator, remainder: seq<byte>)
      ensures this.inner == inner && pending == remainder && !iterated
    {
      this.inner, pending, iterated := inner, remainder, false;
    }

    /** The stream can be iterated once. */
    method Iterate() returns (ok: bool)
      modifies this`iterated
      ensures ok == !old(iterated) && iterated
    {
      ok := !iterated;
      iterated := true;
    }

    method Next() returns (done: bool, value: seq<byte>)
      modifies this, inner
      ensures iterated == old(iterated)
      ensures done ==> old(Rest()) == [] && Rest() == []
      ensures !done ==> value + Rest() == old(Rest())
      ensures !done ==> |pending| + |inner.chunks| < old(|pending| + |inner.chunks|)
    {
      if |pending| > 0 {
        value := pending;
        pending := [];
        return false, value;
      }
      done, value := inner.Next();
    }
  }

  /** Everything the decoder returned and how it ended. */
  datatype Session = Session(frames: seq<PtyFrame>, threw: bool, finished: bool)

  /** Feeding the rest of an authenticated stream to the PTY decoder gives the
      frames the Go reader finds after the admission frame, for every chunking. */
  method DecodeAuthenticated(chunks: seq<seq<byte>>) returns (ok: bool, session: Session)
    ensures ok <==> |Flatten(chunks)| >= Admission.FRAME_SIZE
    ensures ok ==>
              var (frames, end) := ReadAll(Flatten(chunks)[Admission.FRAME_SIZE..]);
              && (session.threw <==> end.TooLong?)
              && session.frames <= frames
              && (!session.threw ==> session.frames == frames && (session.finished <==> end.CleanEnd?))
  {
    var it := new ChunkIterator(chunks);
    var prefix, remainder;
    ok, prefix, remainder := ConsumePrefix(it, Admission.FRAME_SIZE);
    if !ok {
      return false, Session([], false, false);
    }
    var stream := new WrappedStream(it, remainder);
    DecoderAgreesWithGo(stream.Rest());
    session := Decode(stream);
  }

  /** `frames` have been decoded off the front of `all`, and `left` is to come. */
  predicate Ahead(all: seq<byte>, frames: seq<PtyFrame>, left: seq<byte>)
  {
    Drain(all) == Drain(left).(frames := frames + Drain(left).frames)
  }

  lemma {:induction false} AheadStep(all: seq<byte>, frames: seq<PtyFrame>, buffer: seq<byte>, value: seq<byte>,
      rest: seq<byte>)
    requires Ahead(all, frames, buffer + (value + rest))
    ensures
      var d := Drain(buffer + value);
      if d.threw then Drain(all).threw && frames <= Drain(all).frames
      else Ahead(all, frames + d.frames, d.buffer + rest) && HeadOf(d.buffer).NeedMore?
  {
    var d := Drain(buffer + value);
    Assoc(buffer, value, rest);
    DrainSplits(buffer + value, rest);
    DrainStops(buffer + value);
    Assoc(frames, d.frames, Drain(d.buffer + rest).frames);
  }

  method Decode(stream: WrappedStream) returns (session: Session)
    modifies stream, stream.inner
    ensures
      var whole := Drain(old(stream.Rest()));
      && session.threw == whole.threw
      && session.frames <= whole.frames
      && (!session.threw ==> session.frames == whole.frames && (session.finished <==> whole.buffer == []))
  {
    ghost var all := stream.Rest();
    var decoder := new PtyFrameDecoder();
    var frames: seq<PtyFrame> := [];
    assert [] + all == all && [] + Drain(all).frames == Drain(all).frames;
    while true
      invariant fresh(decoder)
      invariant Ahead(all, frames, decoder.buffer + stream.Rest())
      invariant HeadOf(decoder.buffer).NeedMore?
      decreases |stream.pending| + |stream.inner.chunks|
    {
      ghost var before, rest := decoder.buffer, stream.Rest();
      var done, value := stream.Next();
      if done {
        assert before + rest == before;
        var finished := decoder.Finish();
        return Session(frames, false, finished);
      }
      AheadStep(all, frames, before, value, stream.Rest());
      assert value + stream.Rest() == rest;
      var threw, more := decoder.Push(value);
      if threw {
        return Session(frames, true, false);
      }
      frames := frames + more;
    }
  }
}
