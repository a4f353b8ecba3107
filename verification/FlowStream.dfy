/** One endpoint of the native WebRTC stream (nativewebrtc/stream.go).

    Each critical section of the Go code is one function on the endpoint's state;
    the class below is the endpoint itself, its methods proved against those
    functions.  A call that would park on a condition variable reports `Blocked`
    and changes nothing. */
module FlowStream {
  import opened Bytes
  import opened Sequences

  const FLOW_WINDOW: nat := 262144
  const MAX_READ_QUEUE: nat := 1048576

  type Chunk = seq<byte>

  datatype Control = Eof | Abort | FlowOn | Resume | Ack(count: int) | Ping | Pong | Unknown

  datatype Frame = Data(payload: Chunk) | Ctl(control: Control) | Unexpected

  datatype Fault = RemoteAbort | QueueOverflow | LocalReset | LinkLost

  datatype ReadOutcome = ReadBlocked | Got(bytes: Chunk) | EndOfFile | ReadFailed(fault: Fault)

  datatype WriteOutcome = WriteBlocked | ClosedPipe | SendFailed | Written(count: nat)

  datatype Arrival = Accepted | Discarded | Overflow

  datatype State = State(
    readQueue: seq<Chunk>, readQueued: int, readOffset: nat,
    readErr: Option<Fault>, closedRead: bool,
    writeClosed: bool, closed: bool,
    flowEnabled: bool, inFlight: int)

  const FRESH := State([], 0, 0, None, false, false, false, false, 0)

  function Len(c: Chunk): nat { |c| }

  /** What every critical section keeps: the byte count matches the queue, the
      offset lies strictly inside the head chunk, the queue respects its limit
      and the credit counter is never negative. */
  predicate Ok(s: State)
  {
    && s.readQueued == Sum(s.readQueue, Len)
    && s.readQueued <= MAX_READ_QUEUE
    && (s.readQueue == [] ==> s.readOffset == 0)
    && (s.readQueue != [] ==> s.readOffset == 0 || s.readOffset < |s.readQueue[0]|)
    && 0 <= s.inFlight
  }

  /** Bytes received and not yet handed to the reader. */
  function Unread(s: State): (r: Chunk)
  {
    var bytes := Flatten(s.readQueue);
    if s.readOffset <= |bytes| then bytes[s.readOffset..] else []
  }

  function ReadStep(s: State, room: nat): (r: (State, ReadOutcome, seq<Control>))
    requires Ok(s)
  {
    if s.readQueue == [] then
      if s.readErr.Some? then (s, ReadFailed(s.readErr.value), [])
      else if s.closedRead then (s, EndOfFile, [])
      else (s, ReadBlocked, [])
    else
      var chunk := s.readQueue[0];
      var left := |chunk| - s.readOffset;
      var count := if room < left then room else left;
      var bytes := chunk[s.readOffset..s.readOffset + count];
      if s.readOffset + count == |chunk| then
        (s.(readQueue := s.readQueue[1..], readQueued := s.readQueued - |chunk|, readOffset := 0),
         Got(bytes), [Ack(|chunk|)])
      else
        (s.(readOffset := s.readOffset + count), Got(bytes), [])
  }

  /** Part of the head chunk is read. */
  lemma {:induction false} ReadPart(s: State, room: nat)
    requires Ok(s) && s.readQueue != [] && s.readOffset + room < |s.readQueue[0]|
    ensures
      var s' := s.(readOffset := s.readOffset + room);
      var bytes := s.readQueue[0][s.readOffset..s.readOffset + room];
      && ReadStep(s, room) == (s', Got(bytes), [])
      && Ok(s') && bytes + Unread(s') == Unread(s)
  {
    var chunk, rest := s.readQueue[0], Flatten(s.readQueue[1..]);
    SplitHead(chunk, rest, s.readOffset, room);
    assert Flatten(s.readQueue) == chunk + rest;
  }

  /** The rest of the head chunk is read and the chunk released. */
  lemma {:induction false} ReadWhole(s: State, room: nat)
    requires Ok(s) && s.readQueue != [] && s.readOffset + room >= |s.readQueue[0]|
    ensures
      var chunk := s.readQueue[0];
      var s' := s.(readQueue := s.readQueue[1..], readQueued := s.readQueued - |chunk|, readOffset := 0);
      && ReadStep(s, room) == (s', Got(chunk[s.readOffset..]), [Ack(|chunk|)])
      && Ok(s') && chunk[s.readOffset..] + Unread(s') == Unread(s)
  {
    var chunk, rest := s.readQueue[0], Flatten(s.readQueue[1..]);
    SplitHead(chunk, rest, s.readOffset, |chunk| - s.readOffset);
    assert Flatten(s.readQueue) == chunk + rest;
    assert chunk[s.readOffset..|chunk|] == chunk[s.readOffset..];
  }

  /** Read hands out the unread bytes in order and without loss, and reports the
      end of the stream or a fault only when nothing is left to read. */
  lemma {:induction false} ReadKeepsBytes(s: State, room: nat)
    requires Ok(s)
    ensures
      var (s', outcome, acks) := ReadStep(s, room);
      && Ok(s')
      && (outcome.Got? ==> |outcome.bytes| <= room && outcome.bytes + Unread(s') == Unread(s))
      && (!outcome.Got? ==> Unread(s) == [])
  {
    if s.readQueue == [] {
      assert Unread(s) == [];
    } else if s.readOffset + room < |s.readQueue[0]| {
      ReadPart(s, room);
    } else {
      ReadWhole(s, room);
    }
  }

  /** Read acknowledges exactly the bytes it releases from the queue, and touches
      nothing but the queue. */
  lemma {:induction false} ReadAcknowledges(s: State, room: nat)
    requires Ok(s)
    ensures
      var (s', outcome, acks) := ReadStep(s, room);
      && s.readQueued == s'.readQueued + Sum(acks, ControlCredit)
      && s'.inFlight == s.inFlight && s'.flowEnabled == s.flowEnabled && s'.closed == s.closed
      && s'.closedRead == s.closedRead && s'.writeClosed == s.writeClosed && s'.readErr == s.readErr
      && (!outcome.Got? ==> s' == s && acks == [])
  {
    if s.readQueue != [] {
      assert Sum([Ack(|s.readQueue[0]|)], ControlCredit) == |s.readQueue[0]| + 0;
    }
  }

  lemma SplitHead(chunk: Chunk, rest: Chunk, from: nat, count: nat)
    requires from + count <= |chunk|
    ensures (chunk + rest)[from..] == chunk[from..from + count] + (chunk + rest)[from + count..]
    ensures (chunk + rest)[|chunk|..] == rest
  {
  }

  /** A write must wait: credit is in use and the payload would exceed the window. */
  predicate MustWait(s: State, length: nat)
  {
    s.flowEnabled && s.inFlight > 0 && s.inFlight + length > FLOW_WINDOW && !s.closed
  }

  predicate MayWrite(s: State, length: nat)
  {
    !s.writeClosed && !s.closed && !MustWait(s, length)
  }

  function Reserve(s: State, length: nat): (r: State)
  {
    if s.flowEnabled then s.(inFlight := s.inFlight + length) else s
  }

  function Acknowledge(s: State, count: int): (r: State)
  {
    s.(inFlight := if s.inFlight - count < 0 then 0 else s.inFlight - count)
  }

  function ResetCredit(s: State): (r: State)
  {
    s.(inFlight := 0)
  }

  function ReceiveData(s: State, payload: Chunk): (r: (State, Arrival))
  {
    if s.closedRead || s.closed then (s, Discarded)
    else if |payload| > MAX_READ_QUEUE - s.readQueued then (s, Overflow)
    else (s.(readQueue := s.readQueue + [payload], readQueued := s.readQueued + |payload|), Accepted)
  }

  /** An accepted frame is appended to the unread bytes; any other is dropped
      without touching them, and overflow happens exactly at the 1 MiB limit. */
  lemma {:induction false} ReceiveAppends(s: State, payload: Chunk)
    requires Ok(s)
    ensures
      var (s', arrival) := ReceiveData(s, payload);
      && Ok(s')
      && s' == s.(readQueue := s'.readQueue, readQueued := s'.readQueued)
      && Unread(s') == (if arrival.Accepted? then Unread(s) + payload else Unread(s))
      && s'.readQueued == (if arrival.Accepted? then s.readQueued + |payload| else s.readQueued)
      && (arrival.Accepted? <==> !s.closedRead && !s.closed && s.readQueued + |payload| <= 1048576)
      && (arrival.Overflow? <==> !s.closedRead && !s.closed && s.readQueued + |payload| > 1048576)
  {
    SumSnoc(s.readQueue, payload, Len);
    FlattenSnoc(s.readQueue, payload);
  }

  function FailStart(s: State): (r: State) { s.(closed := true) }

  function FailRead(s: State, fault: Option<Fault>): (r: State)
  {
    s.(closedRead := true, readErr := if fault.Some? then fault else s.readErr)
  }

  function FailWrite(s: State): (r: State) { s.(writeClosed := true) }

  function Fail(s: State, fault: Option<Fault>): (r: State)
  {
    if s.closed then s else FailWrite(FailRead(FailStart(s), fault))
  }

  /** Effect of a control frame, with the control frames sent in reply. */
  function ReceiveControl(s: State, control: Control): (r: (State, seq<Control>))
  {
    match control
    case Eof => (s.(closedRead := true), [])
    case Abort => (Fail(s, Some(RemoteAbort)), [])
    case FlowOn => (s.(flowEnabled := true), [])
    case Resume => (ResetCredit(s), [FlowOn])
    case Ack(count) => (if count > 0 then Acknowledge(s, count) else s, [])
    case Ping => (s, [Pong])
    case Pong => (s, [])
    case Unknown => (s, [])
  }

  /** Credit a control frame gives back to the peer. */
  function ControlCredit(c: Control): nat
  {
    if c.Ack? && c.count > 0 then c.count else 0
  }

  class Stream {
    var readQueue: seq<Chunk>
    var readQueued: int
    var readOffset: nat
    var readErr: Option<Fault>
    var closedRead: bool
    var writeClosed: bool
    var closed: bool
    var flowEnabled: bool
    var inFlight: int

    function Now(): (s: State)
      reads this
    {
      State(readQueue, readQueued, readOffset, readErr, closedRead, writeClosed, closed, flowEnabled, inFlight)
    }

    constructor ()
      ensures Now() == FRESH && Ok(Now())
    {
      readQueue, readQueued, readOffset := [], 0, 0;
      readErr, closedRead := None, false;
      writeClosed, closed := false, false;
      flowEnabled, inFlight := false, 0;
    }

    method Read(room: nat) returns (outcome: ReadOutcome, sent: seq<Control>)
      requires Ok(Now())
      modifies this
      ensures (Now(), outcome, sent) == ReadStep(old(Now()), room)
      ensures Ok(Now())
      ensures outcome.Got? ==> outcome.bytes + Unread(Now()) == old(Unread(Now()))
      ensures !outcome.Got? ==> old(Unread(Now())) == [] && Now() == old(Now())
      ensures old(readQueue) == [] ==>
                && sent == []
                && (forall f :: outcome == ReadFailed(f) <==> readErr == Some(f))
                && (outcome.EndOfFile? <==> readErr.None? && closedRead)
                && (outcome.ReadBlocked? <==> readErr.None? && !closedRead)
      ensures old(readQueue) != [] ==>
                var left := |old(readQueue)[0]| - old(readOffset);
                && outcome.Got? && |outcome.bytes| == (if room < left then room else left)
                && sent == (if room < left then [] else [Ack(|old(readQueue)[0]|)])
    {
      ghost var was := Now();
      sent := [];
      if |readQueue| == 0 && !closedRead && readErr.None? {
        outcome := ReadBlocked;
      } else if |readQueue| == 0 {
        outcome := if readErr.Some? then ReadFailed(readErr.value) else EndOfFile;
      } else {
        var chunk := readQueue[0];
        var left := |chunk| - readOffset;
        var count := if room < left then room else left;
        outcome := Got(chunk[readOffset..readOffset + count]);
        readOffset := readOffset + count;
        if readOffset == |chunk| {
          readQueue := readQueue[1..];
          readQueued := readQueued - |chunk|;
          readOffset := 0;
          sent := [Ack(|chunk|)];
        }
      }
      assert (Now(), outcome, sent) == ReadStep(was, room);
      ReadKeepsBytes(was, room);
      ReadAcknowledges(was, room);
    }

    /** One pass through Write; `sendOk` is what the transport answers. */
    method Write(payload: Chunk, sendOk: bool) returns (outcome: WriteOutcome, sent: seq<Frame>)
      requires Ok(Now())
      modifies this
      ensures Ok(Now())
      ensures outcome.Written? || outcome.SendFailed? <==> MayWrite(old(Now()), |payload|)
      ensures outcome.ClosedPipe? <==> old(writeClosed || closed)
      ensures outcome.WriteBlocked? <==>
                old(!writeClosed && !closed && flowEnabled && inFlight > 0 && inFlight + |payload| > 262144)
      ensures outcome.WriteBlocked? || outcome.ClosedPipe? ==> unchanged(this) && sent == []
      ensures outcome.Written? ==>
                && sendOk && sent == [Data(payload)] && outcome.count == |payload|
                && Now() == old(Now()).(inFlight := old(inFlight) + if old(flowEnabled) then |payload| else 0)
      ensures outcome.SendFailed? ==> !sendOk && sent == [] && Now() == old(Now()).(inFlight := inFlight)
      ensures outcome.SendFailed? && old(flowEnabled) ==> inFlight == old(inFlight)
      ensures outcome.SendFailed? && !old(flowEnabled) ==>
                inFlight == if old(inFlight) < |payload| then 0 else old(inFlight) - |payload|
    {
      sent := [];
      if writeClosed || closed {
        return ClosedPipe, [];
      }
      if flowEnabled && inFlight > 0 && inFlight + |payload| > FLOW_WINDOW && !closed {
        return WriteBlocked, [];
      }
      if flowEnabled {
        inFlight := inFlight + |payload|;
      }
      if !sendOk {
        ReleaseCredit(|payload|);
        return SendFailed, [];
      }
      return Written(|payload|), [Data(payload)];
    }

    method CloseWrite() returns (sent: seq<Control>)
      modifies this`writeClosed
      ensures Now() == old(Now()).(writeClosed := true)
      ensures sent == if old(writeClosed) then [] else [Eof]
    {
      if writeClosed {
        return [];
      }
      writeClosed := true;
      return [Eof];
    }

    /** A data frame that does not fit the receive queue fails the stream. */
    method Receive(frame: Frame) returns (ok: bool, sent: seq<Control>)
      requires Ok(Now())
      modifies this
      ensures Ok(Now())
      ensures frame.Data? ==>
                var (s, arrival) := ReceiveData(old(Now()), frame.payload);
                ok == !arrival.Overflow? && sent == [] &&
                Now() == if arrival.Overflow? then Fail(s, Some(QueueOverflow)) else s
      ensures frame.Data? && !old(closedRead || closed) && old(readQueued) + |frame.payload| <= 1048576 ==>
                && ok && readQueue == old(readQueue) + [frame.payload]
                && Now() == old(Now()).(readQueue := readQueue, readQueued := old(readQueued) + |frame.payload|)
      ensures frame.Data? && old(closedRead || closed) ==> ok && unchanged(this)
      ensures frame.Data? && !old(closedRead || closed) && old(readQueued) + |frame.payload| > 1048576 ==>
                !ok && closed && readErr == Some(QueueOverflow) && readQueue == old(readQueue)
      ensures frame.Ctl? ==> ok && (Now(), sent) == ReceiveControl(old(Now()), frame.control)
      ensures frame.Unexpected? ==> !ok && sent == [] && unchanged(this)
    {
      ok, sent := true, [];
      match frame {
        case Data(payload) =>
          ReceiveAppends(Now(), payload);
          if !closedRead && !closed {
            if |payload| > MAX_READ_QUEUE - readQueued {
              FailWith(Some(QueueOverflow));
              return false, [];
            }
            readQueue := readQueue + [payload];
            readQueued := readQueued + |payload|;
          }
        case Ctl(control) =>
          sent := HandleControl(control);
        case Unexpected =>
          ok := false;
      }
    }

    method Reconnected() returns (sent: seq<Control>)
      modifies this`inFlight
      ensures Now() == ResetCredit(old(Now()))
      ensures sent == [Resume, FlowOn]
    {
      inFlight := 0;
      sent := [Resume, FlowOn];
    }

    method HandleControl(control: Control) returns (sent: seq<Control>)
      requires Ok(Now())
      modifies this
      ensures Ok(Now())
      ensures (Now(), sent) == ReceiveControl(old(Now()), control)
      ensures control == Eof ==> Now() == old(Now()).(closedRead := true) && sent == []
      ensures control == Abort ==> closed && sent == [] && (!old(closed) ==> readErr == Some(RemoteAbort))
      ensures control == FlowOn ==> Now() == old(Now()).(flowEnabled := true) && sent == []
      ensures control == Resume ==> Now() == old(Now()).(inFlight := 0) && sent == [FlowOn]
      ensures control.Ack? && control.count > 0 ==>
                && Now() == old(Now()).(inFlight := inFlight) && sent == []
                && inFlight == if old(inFlight) < control.count then 0 else old(inFlight) - control.count
      ensures control == Ping ==> unchanged(this) && sent == [Pong]
      ensures control == Pong || control == Unknown || (control.Ack? && control.count <= 0) ==>
                unchanged(this) && sent == []
    {
      sent := [];
      match control {
        case Eof => closedRead := true;
        case Abort => FailWith(Some(RemoteAbort));
        case FlowOn => flowEnabled := true;
        case Resume =>
          inFlight := 0;
          sent := [FlowOn];
        case Ack(count) =>
          if count > 0 { ReleaseCredit(count); }
        case Ping => sent := [Pong];
        case Pong =>
        case Unknown =>
      }
    }

    method ReleaseCredit(count: int)
      modifies this`inFlight
      ensures Now() == Acknowledge(old(Now()), count)
      ensures inFlight == if old(inFlight) - count < 0 then 0 else old(inFlight) - count
    {
      inFlight := inFlight - count;
      if inFlight < 0 {
        inFlight := 0;
      }
    }

    /** Only the first failure takes effect; queued bytes stay readable. */
    method FailWith(fault: Option<Fault>)
      requires Ok(Now())
      modifies this
      ensures Now() == Fail(old(Now()), fault)
      ensures Ok(Now()) && closed && Unread(Now()) == old(Unread(Now()))
      ensures old(closed) ==> unchanged(this)
      ensures !old(closed) ==>
                && closedRead && writeClosed && readErr == (if fault.Some? then fault else old(readErr))
                && readQueue == old(readQueue) && readOffset == old(readOffset) && inFlight == old(inFlight)
    {
      if closed {
        return;
      }
      closed := true;
      closedRead := true;
      if fault.Some? {
        readErr := fault;
      }
      writeClosed := true;
    }
  }
}
