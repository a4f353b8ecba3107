/** PTY frames: the blocking Go reader and writer (protocol/pty/frames.go) and the
    incremental JavaScript decoder (packages/core/src/index.js). */
module PtyFrames {
  import opened Bytes
  import opened Sequences
  import opened ByteStream

  const HEADER_LENGTH := 5
  const MAX_FRAME := 1048576

  datatype PtyFrame = PtyFrame(kind: byte, data: seq<byte>)

  predicate Fits(f: PtyFrame) { |f.data| <= MAX_FRAME }

  function Encode(f: PtyFrame): (r: seq<byte>) { [f.kind] + PutUint(|f.data|, 4) + f.data }

  function EncodeAll(fs: seq<PtyFrame>): (r: seq<byte>)
  {
    if fs == [] then [] else Encode(fs[0]) + EncodeAll(fs[1..])
  }

  // ------------------------------------------------------------ the Go side

  datatype GoRead = Frame(frame: PtyFrame) | CleanEnd | CutHeader | TooLong | CutBody

  /** One ReadFrame from a stream that holds `s`. */
  function ReadOne(s: seq<byte>): (r: (GoRead, seq<byte>))
    ensures r.0.Frame? ==> |r.1| < |s|
  {
    var (header, rest) := ReadFullOf(s, HEADER_LENGTH);
    match header
    case Eof => (CleanEnd, rest)
    case UnexpectedEof => (CutHeader, rest)
    case Full(h) =>
      var length := GetUint(h[1..]);
      if length > MAX_FRAME then (TooLong, rest)
      else
        var (body, rest') := ReadFullOf(rest, length);
        if body.Full? then (Frame(PtyFrame(h[0], body.bytes)), rest') else (CutBody, rest')
  }

  /** Repeated ReadFrame: the frames, and how the stream ended. */
  function ReadAll(s: seq<byte>): (r: (seq<PtyFrame>, GoRead))
    ensures !r.1.Frame?
    decreases |s|
  {
    var (result, rest) := ReadOne(s);
    if result.Frame? then
      var (more, end) := ReadAll(rest);
      ([result.frame] + more, end)
    else ([], result)
  }

  method WriteFrame(w: Writer, f: PtyFrame) returns (ok: bool)
    modifies w
    ensures !Fits(f) ==> !ok && w.out == old(w.out)
    ensures Fits(f) ==> old(w.out) <= w.out <= old(w.out) + Encode(f)
    ensures ok ==> Fits(f) && w.out == old(w.out) + Encode(f)
    ensures |f.data| <= 1048576 ==> forall n: nat | 5 + |f.data| <= n && old(w.Willing(n)) :: ok
  {
    if |f.data| > MAX_FRAME {
      return false;
    }
    var header := [f.kind] + PutUint(|f.data|, 4);
    Assoc(old(w.out), header, f.data);
    ok := w.WriteAll(header);
    if !ok {
      return false;
    }
    ok := w.WriteAll(f.data);
  }

  method ReadFrame(r: Reader) returns (result: GoRead)
    modifies r
    ensures (result, r.Rest()) == ReadOne(old(r.Rest()))
    ensures
      var s := old(r.Rest());
      if |s| == 0 then result == CleanEnd
      else if |s| < 5 then result == CutHeader
      else
        var length := Uint32(s[1], s[2], s[3], s[4]);
        if length > 1048576 then result == TooLong
        else if |s| < 5 + length then result == CutBody
        else result == Frame(PtyFrame(s[0], s[5..5 + length])) && r.Rest() == s[5 + length..]
  {
    ReadByBytes(r.Rest());
    var header := r.ReadFull(HEADER_LENGTH);
    if header.Eof? {
      return CleanEnd;
    }
    if header.UnexpectedEof? {
      return CutHeader;
    }
    var length := GetUint(header.bytes[1..]);
    if length > MAX_FRAME {
      return TooLong;
    }
    var body := r.ReadFull(length);
    if !body.Full? {
      return CutBody;
    }
    return Frame(PtyFrame(header.bytes[0], body.bytes));
  }

  /** On the wire: the kind, four bytes of length, the most significant one first, and
      the data. */
  lemma {:induction false} Layout(f: PtyFrame)
    requires |f.data| <= 1048576
    ensures
      var e := Encode(f);
      |e| == 5 + |f.data| && e[0] == f.kind && Uint32(e[1], e[2], e[3], e[4]) == |f.data| && e[5..] == f.data
  {
    PutFour(|f.data|);
    assert Encode(f)[1..5] == PutUint(|f.data|, 4);
    assert Encode(f)[5..] == f.data;
  }

  /** What ReadFrame makes of a stream, by its bytes. */
  lemma {:induction false} ReadByBytes(s: seq<byte>)
    ensures |s| == 0 ==> ReadOne(s).0 == CleanEnd
    ensures 0 < |s| < 5 ==> ReadOne(s).0 == CutHeader
    ensures |s| >= 5 ==>
              var length := Uint32(s[1], s[2], s[3], s[4]);
              if length > 1048576 then ReadOne(s).0 == TooLong
              else if |s| < 5 + length then ReadOne(s).0 == CutBody
              else ReadOne(s) == (Frame(PtyFrame(s[0], s[5..5 + length])), s[5 + length..])
  {
    if |s| >= 5 {
      FourBytes(s[1], s[2], s[3], s[4]);
      assert s[..5][1..] == [s[1], s[2], s[3], s[4]];
      var length := Uint32(s[1], s[2], s[3], s[4]);
      if |s| >= 5 + length { assert s[5..][..length] == s[5..5 + length] && s[5..][length..] == s[5 + length..]; }
    }
  }

  lemma {:induction false} EncodeStarts(f: PtyFrame, tail: seq<byte>)
    requires Fits(f)
    ensures var s := Encode(f) + tail; s[0] == f.kind && s[1..5] == PutUint(|f.data|, 4) && s[5..] == f.data + tail
    ensures GetUint(PutUint(|f.data|, 4)) == |f.data|
  {
    Capacities();
    GetPut(|f.data|, 4);
  }

  lemma {:induction false} ReadInvertsWrite(f: PtyFrame, tail: seq<byte>)
    requires Fits(f)
    ensures ReadOne(Encode(f) + tail) == (Frame(f), tail)
  {
    EncodeStarts(f, tail);
    var s := Encode(f) + tail;
    assert s[..5][1..] == s[1..5];
    assert (f.data + tail)[..|f.data|] == f.data && (f.data + tail)[|f.data|..] == tail;
  }

  /** The Go reader returns exactly the written frames and then a clean end. */
  lemma {:induction false} ReadAllInvertsWriteAll(fs: seq<PtyFrame>)
    requires forall f | f in fs :: Fits(f)
    ensures ReadAll(EncodeAll(fs)) == (fs, CleanEnd)
  {
    if fs != [] {
      ReadInvertsWrite(fs[0], EncodeAll(fs[1..]));
      ReadAllInvertsWriteAll(fs[1..]);
      assert fs == [fs[0]] + fs[1..];
    }
  }

  // ---------------------------------------------------- the JavaScript side

  datatype Head = NeedMore | Oversized | Ready(frame: PtyFrame, rest: seq<byte>)

  /** What the decoder sees at the front of its buffer. */
  function HeadOf(buffer: seq<byte>): (r: Head)
    ensures r.Ready? ==> |r.rest| < |buffer|
  {
    if |buffer| < HEADER_LENGTH then NeedMore
    else
      var length := GetUint(buffer[1..5]);
      if length > MAX_FRAME then Oversized
      else if |buffer| < HEADER_LENGTH + length then NeedMore
      else Ready(PtyFrame(buffer[0], buffer[HEADER_LENGTH..HEADER_LENGTH + length]), buffer[HEADER_LENGTH + length..])
  }

  datatype Drained = Drained(frames: seq<PtyFrame>, buffer: seq<byte>, threw: bool)

  /** The decoder's loop: frames taken off the buffer, what stays, and whether it
      stopped at an oversized header. */
  function Drain(buffer: seq<byte>): (r: Drained)
    decreases |buffer|
  {
    match HeadOf(buffer)
    case NeedMore => Drained([], buffer, false)
    case Oversized => Drained([], buffer, true)
    case Ready(frame, rest) =>
      var more := Drain(rest);
      more.(frames := [frame] + more.frames)
  }

  class PtyFrameDecoder {
    var buffer: seq<byte>

    constructor ()
      ensures buffer == []
    {
      buffer := [];
    }

    /** On an oversized header the frames of this call are lost with the exception,
        and the header stays in the buffer. */
    method Push(chunk: seq<byte>) returns (threw: bool, frames: seq<PtyFrame>)
      modifies this
      ensures
        var d := Drain(old(buffer) + chunk);
        threw == d.threw && buffer == d.buffer && (!threw ==> frames == d.frames)
    {
      buffer := buffer + chunk;
      frames := [];
      ghost var whole := Drain(buffer);
      while |buffer| >= HEADER_LENGTH
        invariant whole == Drain(buffer).(frames := frames + Drain(buffer).frames)
        decreases |buffer|
      {
        var length := GetUint(buffer[1..5]);
        if length > MAX_FRAME {
          return true, [];
        }
        if |buffer| < HEADER_LENGTH + length {
          return false, frames;
        }
        var frame := PtyFrame(buffer[0], buffer[HEADER_LENGTH..HEADER_LENGTH + length]);
        Assoc(frames, [frame], Drain(buffer[HEADER_LENGTH + length..]).frames);
        frames := frames + [frame];
        buffer := buffer[HEADER_LENGTH + length..];
      }
      return false, frames;
    }

    method Finish() returns (ok: bool)
      ensures ok <==> buffer == []
    {
      ok := |buffer| == 0;
    }
  }

  /** Successive pushes up to the first that throws: the frames returned and the
      buffer left. */
  function PushAll(buffer: seq<byte>, chunks: seq<seq<byte>>): (r: Drained)
    decreases |chunks|
  {
    if chunks == [] then Drained([], buffer, false)
    else
      var d := Drain(buffer + chunks[0]);
      var more := PushAll(d.buffer, chunks[1..]);
      if d.threw then Drained([], d.buffer, true) else more.(frames := d.frames + more.frames)
  }

  lemma {:induction false} HeadMonotone(a: seq<byte>, b: seq<byte>)
    ensures HeadOf(a).Ready? ==> HeadOf(a + b) == Ready(HeadOf(a).frame, HeadOf(a).rest + b)
    ensures HeadOf(a).Oversized? ==> HeadOf(a + b).Oversized?
  {
    if |a| >= HEADER_LENGTH {
      assert (a + b)[1..5] == a[1..5];
      var length := GetUint(a[1..5]);
      if |a| >= HEADER_LENGTH + length {
        assert (a + b)[HEADER_LENGTH..HEADER_LENGTH + length] == a[HEADER_LENGTH..HEADER_LENGTH + length];
        assert (a + b)[HEADER_LENGTH + length..] == a[HEADER_LENGTH + length..] + b;
      }
    }
  }

  /** Draining in two goes is draining at once. */
  lemma {:induction false} DrainSplits(a: seq<byte>, b: seq<byte>)
    ensures
      var (first, whole) := (Drain(a), Drain(a + b));
      if first.threw then whole.threw && whole.frames == first.frames && whole.buffer == first.buffer + b
      else whole == Drain(first.buffer + b).(frames := first.frames + Drain(first.buffer + b).frames)
    decreases |a|
  {
    HeadMonotone(a, b);
    if HeadOf(a).Ready? {
      var (frame, rest) := (HeadOf(a).frame, HeadOf(a).rest);
      DrainSplits(rest, b);
      assert Drain(a + b).frames == [frame] + Drain(rest + b).frames;
      Assoc([frame], Drain(rest).frames, Drain(Drain(rest).buffer + b).frames);
    }
  }

  /** An oversized header is never passed: every later push throws again. */
  lemma {:induction false} OversizedSticks(buffer: seq<byte>, chunk: seq<byte>)
    ensures Drain(buffer).threw ==> Drain(Drain(buffer).buffer + chunk).threw
    decreases |buffer|
  {
    match HeadOf(buffer)
    case NeedMore =>
    case Oversized => HeadMonotone(buffer, chunk);
    case Ready(_, rest) => OversizedSticks(rest, chunk);
  }

  /** Every one of these pushes throws. */
  predicate AllThrow(buffer: seq<byte>, chunks: seq<seq<byte>>)
    decreases |chunks|
  {
    chunks == [] ||
    (Drain(buffer + chunks[0]).threw && AllThrow(Drain(buffer + chunks[0]).buffer, chunks[1..]))
  }

  lemma {:induction false} OversizedForever(buffer: seq<byte>, chunks: seq<seq<byte>>)
    requires Drain(buffer).threw
    ensures AllThrow(Drain(buffer).buffer, chunks)
    decreases |chunks|
  {
    if chunks != [] {
      OversizedSticks(buffer, chunks[0]);
      OversizedForever(Drain(buffer).buffer + chunks[0], chunks[1..]);
    }
  }

  /** How the stream is cut does not matter: pushes throw exactly when the whole
      stream holds an oversized header, and otherwise return its frames and keep
      its unfinished tail; before a throw they have returned a prefix. */
  lemma {:induction false} ChunkingIsIrrelevant(buffer: seq<byte>, chunks: seq<seq<byte>>)
    requires HeadOf(buffer).NeedMore?
    ensures
      var (pushed, whole) := (PushAll(buffer, chunks), Drain(buffer + Flatten(chunks)));
      && pushed.threw == whole.threw
      && pushed.frames <= whole.frames
      && (!whole.threw ==> pushed == whole)
    decreases |chunks|
  {
    if chunks == [] {
      assert buffer + Flatten(chunks) == buffer;
    } else {
      var rest := Flatten(chunks[1..]);
      Assoc(buffer, chunks[0], rest);
      DrainSplits(buffer + chunks[0], rest);
      var d := Drain(buffer + chunks[0]);
      if !d.threw {
        DrainStops(buffer + chunks[0]);
        ChunkingIsIrrelevant(d.buffer, chunks[1..]);
      }
    }
  }

  lemma {:induction false} DrainStops(buffer: seq<byte>)
    ensures !Drain(buffer).threw ==> HeadOf(Drain(buffer).buffer).NeedMore?
    decreases |buffer|
  {
    if HeadOf(buffer).Ready? { DrainStops(HeadOf(buffer).rest); }
  }

  /** The two readers agree on every byte string: same frames, the decoder throws
      exactly when Go reports an oversized frame, and its buffer is empty at the end
      exactly when Go ends at a frame boundary. */
  lemma {:induction false} DecoderAgreesWithGo(s: seq<byte>)
    ensures
      var (d, (frames, end)) := (Drain(s), ReadAll(s));
      && d.frames == frames
      && (d.threw <==> end.TooLong?)
      && (!d.threw ==> (d.buffer == [] <==> end.CleanEnd?))
    decreases |s|
  {
    HeadAgrees(s);
    if HeadOf(s).Ready? { DecoderAgreesWithGo(HeadOf(s).rest); }
  }

  lemma {:induction false} HeadAgrees(s: seq<byte>)
    ensures
      var (h, (r, rest)) := (HeadOf(s), ReadOne(s));
      match h
      case Ready(f, tail) => r == Frame(f) && rest == tail
      case Oversized => r == TooLong
      case NeedMore => if s == [] then r == CleanEnd else r == CutHeader || r == CutBody
  {
  }

  /** End to end: written frames, cut into chunks in any way, come out of the
      decoder exactly, and `finish` succeeds. */
  lemma {:induction false} DecoderInvertsEncoder(fs: seq<PtyFrame>, chunks: seq<seq<byte>>)
    requires forall f | f in fs :: Fits(f)
    requires Flatten(chunks) == EncodeAll(fs)
    ensures PushAll([], chunks) == Drained(fs, [], false)
  {
    ReadAllInvertsWriteAll(fs);
    DecoderAgreesWithGo(EncodeAll(fs));
    ChunkingIsIrrelevant([], chunks);
    assert [] + Flatten(chunks) == Flatten(chunks);
  }
}
