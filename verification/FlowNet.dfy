/** Two stream endpoints joined by channels that keep data in order and may lose
    frames.

    Every action is one critical section of nativewebrtc/stream.go or one move of
    the channel.  Control frames that the Go code sends from their own goroutines
    wait in an unordered pool and enter the channel anywhere; data and end-of-file
    enter behind all data and end-of-file before them.  FlowTransports has one
    queue for every transport and refines this system. */
module FlowNet {
  import opened Bytes
  import opened Sequences
  import opened FlowStream

  datatype Pending = Idle | SendingData(payload: Chunk) | SendingEof

  /** How far the endpoint's one failure has got: `closed` is set first, then the
      reader is told, then the writer. */
  datatype Failure = NoFailure | Failing(fault: Option<Fault>) | ReaderFailed(fault: Option<Fault>) |
                     Failed(fault: Option<Fault>)

  datatype Node = Node(st: State, pend: Pending, pool: seq<Control>, out: seq<Frame>, fail: Failure)

  /** History of the data sent in one direction.  `written` holds the payloads of
      writes handed to the transport, `accepted` the chunks the receiver queued,
      `delivered` the bytes its reader got.  `resets` counts the sender's credit
      resets, `forgiven` the credit they erased, `preflow` the bytes written
      before flow control was on, `overAck` acknowledged bytes beyond the
      credit, `lost` data and acknowledgement bytes that vanished and `dropped`
      the data frames among them, `biggest` the largest accounted write. */
  datatype Flow = Flow(
    written: seq<Chunk>, accepted: seq<Chunk>, delivered: Chunk, eofSeen: bool,
    resets: nat, forgiven: nat, preflow: nat, overAck: nat, lost: nat, dropped: nat, biggest: nat)

  /** `ab` is the data flow from `a` to `b`, `ba` the other way. */
  datatype Net = Net(a: Node, b: Node, ab: Flow, ba: Flow)

  function Swap(n: Net): (r: Net) { Net(n.b, n.a, n.ba, n.ab) }

  const EMPTY_FLOW := Flow([], [], [], false, 0, 0, 0, 0, 0, 0, 0)
  const FRESH_NODE := Node(FRESH, Idle, [FlowOn], [], NoFailure)
  const START := Net(FRESH_NODE, FRESH_NODE, EMPTY_FLOW, EMPTY_FLOW)

  datatype Action =
    | BeginWrite(payload: Chunk)
    | SendOk(at: nat) | SendLost | SendFail
    | BeginCloseWrite
    | ReadSome(room: nat)
    | Deliver
    | SendControl(index: nat, at: nat) | LoseControl(index: nat)
    | LoseFrame(index: nat)
    | Reconnect
    | StartFail(fault: Option<Fault>) | FailReader | FailWriter
    | Say(control: Control)

  /** Frames that the pending write may overtake: those of other goroutines. */
  predicate Quiet(frames: seq<Frame>)
  {
    forall f | f in frames :: !f.Data? && f != Ctl(Eof)
  }

  /** When endpoint `a` can take an action. */
  predicate Enabled(n: Net, act: Action)
  {
    match act
    case BeginWrite(p) => n.a.pend.Idle? && MayWrite(n.a.st, |p|)
    case SendOk(at) => !n.a.pend.Idle? && at <= |n.a.out| && Quiet(n.a.out[at..])
    case SendLost => !n.a.pend.Idle?
    case SendFail => !n.a.pend.Idle?
    case BeginCloseWrite => n.a.pend.Idle? && !n.a.st.writeClosed
    case ReadSome(_) => n.a.st.readQueue != []
    case Deliver => n.b.out != []
    case SendControl(i, at) => i < |n.a.pool| && at <= |n.a.out|
    case LoseControl(i) => i < |n.a.pool|
    case LoseFrame(i) => i < |n.a.out|
    case Reconnect => true
    case StartFail(_) => true
    case FailReader => n.a.fail.Failing?
    case FailWriter => n.a.fail.ReaderFailed? && n.a.pend.Idle?
    case Say(c) => c.Ping? || c.Abort?
  }

  function Max(x: nat, y: nat): nat { if x < y then y else x }

  function Lose(n: Net, f: Frame): (r: Net)
  {
    match f
    case Data(p) => n.(ab := n.ab.(lost := n.ab.lost + |p|, dropped := n.ab.dropped + 1))
    case Ctl(c) => n.(ba := n.ba.(lost := n.ba.lost + ControlCredit(c)))
    case Unexpected => n
  }

  /** Zeroing the credit of `a` forgives what was in flight. */
  function ForgiveCredit(n: Net): (r: Net)
    requires 0 <= n.a.st.inFlight
  {
    n.(a := n.a.(st := ResetCredit(n.a.st)),
       ab := n.ab.(resets := n.ab.resets + 1, forgiven := n.ab.forgiven + n.a.st.inFlight))
  }

  function ReleaseCredit(n: Net, count: nat): (r: Net)
    requires 0 <= n.a.st.inFlight
  {
    n.(a := n.a.(st := Acknowledge(n.a.st, count)),
       ab := n.ab.(overAck := n.ab.overAck + (if count > n.a.st.inFlight then count - n.a.st.inFlight else 0)))
  }

  function DoBeginWrite(n: Net, p: Chunk): (r: Net)
  {
    n.(a := n.a.(st := Reserve(n.a.st, |p|), pend := SendingData(p)),
       ab := if n.a.st.flowEnabled then n.ab.(biggest := Max(n.ab.biggest, |p|))
             else n.ab.(preflow := n.ab.preflow + |p|))
  }

  function PendingFrame(p: Pending): (r: Frame)
    requires !p.Idle?
  {
    if p.SendingData? then Data(p.payload) else Ctl(Eof)
  }

  /** The pending frame is handed over. */
  function Logged(n: Net): (r: Net)
  {
    n.(a := n.a.(pend := Idle),
       ab := if n.a.pend.SendingData? then n.ab.(written := n.ab.written + [n.a.pend.payload]) else n.ab)
  }

  function DoSend(n: Net, at: nat): (r: Net)
    requires !n.a.pend.Idle? && at <= |n.a.out|
  {
    Logged(n.(a := n.a.(out := Insert(n.a.out, at, PendingFrame(n.a.pend)))))
  }

  /** The frame is handed over and never arrives. */
  function DoSendLost(n: Net): (r: Net)
    requires !n.a.pend.Idle?
  {
    Lose(Logged(n), PendingFrame(n.a.pend))
  }

  function DoSendFail(n: Net): (r: Net)
    requires 0 <= n.a.st.inFlight
  {
    var idle := n.(a := n.a.(pend := Idle));
    if n.a.pend.SendingData? then ReleaseCredit(idle, |n.a.pend.payload|) else idle
  }

  function DoRead(n: Net, room: nat): (r: Net)
    requires Ok(n.a.st)
  {
    var (st, outcome, acks) := ReadStep(n.a.st, room);
    n.(a := n.a.(st := st, pool := n.a.pool + acks),
       ba := if outcome.Got? then n.ba.(delivered := n.ba.delivered + outcome.bytes) else n.ba)
  }

  /** The first failure of `a` takes hold; later ones change nothing. */
  function BeginFail(x: Node, fault: Option<Fault>): (r: Node)
  {
    if x.st.closed then x else x.(st := FailStart(x.st), fail := Failing(fault))
  }

  /** A frame that overflows the queue fails the stream. */
  function DoDeliverData(n: Net, p: Chunk): (r: Net)
  {
    var (st, arrival) := ReceiveData(n.a.st, p);
    var a := n.a.(st := st);
    n.(a := if arrival.Overflow? then BeginFail(a, Some(QueueOverflow)) else a,
       ba := if arrival.Accepted? then n.ba.(accepted := n.ba.accepted + [p])
             else n.ba.(lost := n.ba.lost + |p|, dropped := n.ba.dropped + 1))
  }

  function DoDeliverControl(n: Net, c: Control): (r: Net)
    requires 0 <= n.a.st.inFlight
  {
    match c
    case Eof => n.(a := n.a.(st := n.a.st.(closedRead := true)), ba := n.ba.(eofSeen := true))
    case FlowOn => n.(a := n.a.(st := n.a.st.(flowEnabled := true)))
    case Resume => var m := ForgiveCredit(n); m.(a := m.a.(pool := m.a.pool + [FlowOn]))
    case Ack(count) => if count > 0 then ReleaseCredit(n, count) else n
    case Ping => n.(a := n.a.(pool := n.a.pool + [Pong]))
    case Abort => n.(a := BeginFail(n.a, Some(RemoteAbort)))
    case _ => n
  }

  /** What `a` does with a frame that has left the channel. */
  function Handled(n: Net, f: Frame): (r: Net)
    requires 0 <= n.a.st.inFlight
  {
    match f
    case Data(p) => DoDeliverData(n, p)
    case Ctl(c) => DoDeliverControl(n, c)
    case Unexpected => n
  }

  function DoDeliver(n: Net): (r: Net)
    requires 0 <= n.a.st.inFlight && n.b.out != []
  {
    Handled(n.(b := n.b.(out := n.b.out[1..])), n.b.out[0])
  }

  function DoLoseFrame(n: Net, i: nat): (r: Net)
    requires i < |n.a.out|
  {
    Lose(n.(a := n.a.(out := Without(n.a.out, i))), n.a.out[i])
  }

  function Apply(n: Net, act: Action): (r: Net)
    requires Ok(n.a.st) && Enabled(n, act)
  {
    match act
    case BeginWrite(p) => DoBeginWrite(n, p)
    case SendOk(at) => DoSend(n, at)
    case SendLost => DoSendLost(n)
    case SendFail => DoSendFail(n)
    case BeginCloseWrite => n.(a := n.a.(st := n.a.st.(writeClosed := true), pend := SendingEof))
    case ReadSome(room) => DoRead(n, room)
    case Deliver => DoDeliver(n)
    case SendControl(i, at) =>
      n.(a := n.a.(pool := Without(n.a.pool, i), out := Insert(n.a.out, at, Ctl(n.a.pool[i]))))
    case LoseControl(i) =>
      Lose(n.(a := n.a.(pool := Without(n.a.pool, i))), Ctl(n.a.pool[i]))
    case LoseFrame(i) => DoLoseFrame(n, i)
    case Reconnect => var m := ForgiveCredit(n); m.(a := m.a.(pool := m.a.pool + [Resume, FlowOn]))
    case StartFail(fault) => n.(a := BeginFail(n.a, fault))
    case FailReader =>
      n.(a := n.a.(st := FailRead(n.a.st, n.a.fail.fault), fail := ReaderFailed(n.a.fail.fault)))
    case FailWriter => n.(a := n.a.(st := FailWrite(n.a.st), fail := Failed(n.a.fail.fault)))
    case Say(c) => n.(a := n.a.(pool := n.a.pool + [c]))
  }

  /** The actions are the endpoint's own critical sections: what a delivered frame
      does to `a` is what `Stream.Receive` computes, except that a failure (after an
      abort or an overflow) goes on with the two actions that tell reader and
      writer. */
  lemma {:induction false} DeliverIsReceive(n: Net)
    requires Ok(n.a.st) && n.b.out != []
    ensures
      var (head, r) := (n.b.out[0], DoDeliver(n));
      && r.b == n.b.(out := n.b.out[1..])
      && (head.Data? ==>
            var (st, arrival) := ReceiveData(n.a.st, head.payload);
            r.a == if arrival.Overflow? then BeginFail(n.a, Some(QueueOverflow)) else n.a.(st := st))
      && (head.Ctl? && !head.control.Abort? ==>
            var (st, replies) := ReceiveControl(n.a.st, head.control);
            r.a == n.a.(st := st, pool := n.a.pool + replies))
      && (head == Ctl(Abort) ==> r.a == BeginFail(n.a, Some(RemoteAbort)))
  {
    assert n.a.pool + [] == n.a.pool;
  }

  /** The other actions of the endpoint, by what the calls of `Stream` do to its fields:
      Write reserves credit and gives it back when the send fails, Read hands out and
      acknowledges, CloseWrite announces the end, Reconnected forgets the credit. */
  lemma {:induction false} ActionsAreCalls(n: Net)
    requires Ok(n.a.st)
    ensures forall p | Enabled(n, BeginWrite(p)) ::
              var reserved := if n.a.st.flowEnabled then |p| else 0;
              Apply(n, BeginWrite(p)).a ==
              n.a.(st := n.a.st.(inFlight := n.a.st.inFlight + reserved), pend := SendingData(p))
    ensures n.a.pend.SendingData? ==>
              var left := n.a.st.inFlight - |n.a.pend.payload|;
              Apply(n, SendFail).a == n.a.(st := n.a.st.(inFlight := if left < 0 then 0 else left), pend := Idle)
    ensures n.a.pend.SendingData? ==>
              Apply(n, SendOk(|n.a.out|)).a == n.a.(pend := Idle, out := n.a.out + [Data(n.a.pend.payload)])
    ensures forall room | n.a.st.readQueue != [] ::
              Apply(n, ReadSome(room)).a ==
              n.a.(st := ReadStep(n.a.st, room).0, pool := n.a.pool + ReadStep(n.a.st, room).2)
    ensures Enabled(n, BeginCloseWrite) ==>
              Apply(n, BeginCloseWrite).a == n.a.(st := n.a.st.(writeClosed := true), pend := SendingEof)
    ensures Apply(n, Reconnect).a == n.a.(st := n.a.st.(inFlight := 0), pool := n.a.pool + [Resume, FlowOn])
  {
    if n.a.pend.SendingData? {
      assert Insert(n.a.out, |n.a.out|, Data(n.a.pend.payload)) == n.a.out + [Data(n.a.pend.payload)];
    }
  }

  /** On an open stream the reader is told at once, the writer after a pending write,
      and the three actions together are one uninterrupted fail. */
  lemma {:induction false} FailureActionsAreFail(n: Net, fault: Option<Fault>)
    requires Ok(n.a.st) && !n.a.st.closed
    ensures
      var m := Apply(n, StartFail(fault));
      && Enabled(m, FailReader)
      && (var r := Apply(m, FailReader);
          && Ok(r.a.st) && (Enabled(r, FailWriter) <==> n.a.pend.Idle?)
          && (n.a.pend.Idle? ==>
                Apply(r, FailWriter) == n.(a := n.a.(st := Fail(n.a.st, fault), fail := Failed(fault)))))
  {
  }

  // ---------------------------------------------------------------- credit

  function DataLen(f: Frame): nat { if f.Data? then |f.payload| else 0 }
  function FrameCredit(f: Frame): nat { if f.Ctl? then ControlCredit(f.control) else 0 }
  function PendLen(p: Pending): nat { if p.SendingData? then |p.payload| else 0 }

  /** Bytes from `x` to `y` that are pending, in the channel, queued, or read and
      awaiting acknowledgement. */
  function Outstanding(x: Node, y: Node): (r: int)
  {
    PendLen(x.pend) + Sum(x.out, DataLen) + y.st.readQueued + Sum(y.pool, ControlCredit) + Sum(y.out, FrameCredit)
  }

  function Window(f: Flow): nat { Max(FLOW_WINDOW, f.biggest) }

  /** The accounting that every action keeps. */
  predicate Credit(x: Node, y: Node, f: Flow)
  {
    && Outstanding(x, y) + f.lost + f.overAck == x.st.inFlight + f.forgiven + f.preflow
    && f.overAck <= f.forgiven + f.preflow
    && x.st.inFlight <= Window(f)
    && f.forgiven <= f.resets * Window(f)
  }

  predicate CreditBoth(n: Net)
  {
    && Ok(n.a.st) && Ok(n.b.st)
    && Credit(n.a, n.b, n.ab) && Credit(n.b, n.a, n.ba)
  }

  /** After r resets at most r + 1 windows, plus what preceded flow control, are
      outstanding. */
  lemma {:induction false} CreditBound(x: Node, y: Node, f: Flow)
    requires Credit(x, y, f)
    ensures Outstanding(x, y) <= (f.resets + 1) * Window(f) + f.preflow
    ensures f.preflow == 0 && f.biggest <= FLOW_WINDOW ==> Outstanding(x, y) <= (f.resets + 1) * FLOW_WINDOW
  {
    var w := Window(f);
    assert (f.resets + 1) * w == f.resets * w + w;
  }

  /** Without resets and losses the counter is exact. */
  lemma {:induction false} CreditExact(x: Node, y: Node, f: Flow, length: nat)
    requires Credit(x, y, f) && f.preflow == 0 && f.resets == 0 && f.lost == 0
    ensures x.st.inFlight == Outstanding(x, y)
    ensures Outstanding(x, y) == 0 ==> !MustWait(x.st, length)
  {
    assert f.resets * Window(f) == 0;
  }

  /** With an exact counter an idle open writer may begin a write exactly if nothing is
      outstanding, or the window of 262144 bytes holds what is and the payload, or
      flow control is off. */
  lemma {:induction false} CreditBegins(x: Node, y: Node, f: Flow, length: nat)
    requires Credit(x, y, f) && f.preflow == 0 && f.resets == 0 && f.lost == 0
    requires 0 <= x.st.inFlight && !x.st.writeClosed && !x.st.closed
    ensures MayWrite(x.st, length) <==>
              Outstanding(x, y) == 0 || Outstanding(x, y) + length <= 262144 || !x.st.flowEnabled
  {
    CreditExact(x, y, f, length);
  }

  /** A data frame on its way that cannot overflow the receiver's queue. */
  lemma {:induction false} CreditFits(x: Node, y: Node, f: Flow, payload: Chunk)
    requires Credit(x, y, f) && f.preflow == 0 && f.biggest <= FLOW_WINDOW && f.resets <= 3
    requires Outstanding(x, y) >= |payload| + y.st.readQueued
    ensures !ReceiveData(y.st, payload).1.Overflow?
  {
    CreditBound(x, y, f);
    WindowGrows(FLOW_WINDOW, f.resets + 1, 4);
  }

  lemma WindowGrows(r: nat, x: nat, y: nat)
    requires x <= y
    ensures r * x <= r * y
  {
  }

  lemma {:induction false} BeginWriteCredit(n: Net, p: Chunk)
    requires CreditBoth(n) && Enabled(n, BeginWrite(p))
    ensures CreditBoth(DoBeginWrite(n, p))
  {
    WindowGrows(n.ab.resets, Window(n.ab), Window(DoBeginWrite(n, p).ab));
  }

  lemma {:induction false} SendCredit(n: Net, at: nat)
    requires CreditBoth(n) && !n.a.pend.Idle? && at <= |n.a.out|
    ensures CreditBoth(DoSend(n, at))
  {
    var frame := PendingFrame(n.a.pend);
    SumInsert(n.a.out, at, frame, DataLen);
    SumInsert(n.a.out, at, frame, FrameCredit);
  }

  lemma SendLostCredit(n: Net)
    requires CreditBoth(n) && !n.a.pend.Idle?
    ensures CreditBoth(DoSendLost(n))
  {
  }

  lemma {:induction false} SendFailCredit(n: Net)
    requires CreditBoth(n) && !n.a.pend.Idle?
    ensures CreditBoth(DoSendFail(n))
  {
    SumNonNegative(n.a, n.b);
  }

  lemma SumNonNegative(x: Node, y: Node)
    requires Ok(y.st)
    ensures Outstanding(x, y) >= PendLen(x.pend)
  {
  }

  lemma {:induction false} ReadCredit(n: Net, room: nat)
    requires CreditBoth(n)
    ensures CreditBoth(DoRead(n, room))
  {
    ReadKeepsBytes(n.a.st, room);
    ReadAcknowledges(n.a.st, room);
    SumConcat(n.a.pool, ReadStep(n.a.st, room).2, ControlCredit);
  }

  lemma {:induction false} ForgiveKeepsCredit(n: Net)
    requires CreditBoth(n)
    ensures CreditBoth(ForgiveCredit(n))
  {
    var w := Window(n.ab);
    assert (n.ab.resets + 1) * w == n.ab.resets * w + w;
  }

  /** Credit still holds after `count` bytes leave `b`'s acknowledgements and are
      released at `a`. */
  lemma {:induction false} ReleaseKeepsCredit(n: Net, count: nat)
    requires Ok(n.a.st) && Ok(n.b.st) && Credit(n.b, n.a, n.ba)
    requires Credit(n.a, n.b, n.ab.(lost := n.ab.lost + count))
    ensures CreditBoth(ReleaseCredit(n, count))
  {
    SumNonNegative(n.a, n.b);
  }

  lemma {:induction false} QuietControl(n: Net, controls: seq<Control>)
    requires CreditBoth(n) && forall c | c in controls :: !c.Ack?
    ensures CreditBoth(n.(a := n.a.(pool := n.a.pool + controls)))
  {
    SumConcat(n.a.pool, controls, ControlCredit);
    QuietSum(controls);
  }

  lemma {:induction false} QuietSum(controls: seq<Control>)
    requires forall c | c in controls :: !c.Ack?
    ensures Sum(controls, ControlCredit) == 0
  {
    if controls != [] { QuietSum(controls[1..]); }
  }

  /** The credit of both directions once the head frame of `b` is taken off the
      channel and before `a` has handled it. */
  predicate CreditTaken(m: Net, head: Frame)
  {
    && Ok(m.a.st) && Ok(m.b.st)
    && Credit(m.a, m.b, m.ab.(lost := m.ab.lost + FrameCredit(head)))
    && Credit(m.b, m.a, m.ba.(lost := m.ba.lost + DataLen(head)))
  }

  lemma {:induction false} DeliverDataCredit(m: Net, p: Chunk)
    requires CreditTaken(m, Data(p))
    ensures CreditBoth(DoDeliverData(m, p))
  {
    ReceiveAppends(m.a.st, p);
  }

  lemma {:induction false} DeliverControlCredit(m: Net, c: Control)
    requires CreditTaken(m, Ctl(c))
    ensures CreditBoth(DoDeliverControl(m, c))
  {
    match c {
      case Ack(count) => if count > 0 { ReleaseKeepsCredit(m, count); }
      case Resume =>
        ForgiveKeepsCredit(m);
        QuietControl(ForgiveCredit(m), [FlowOn]);
      case Ping => QuietControl(m, [Pong]);
      case _ =>
    }
  }

  lemma {:induction false} HandledCredit(m: Net, f: Frame)
    requires CreditTaken(m, f)
    ensures CreditBoth(Handled(m, f))
  {
    match f {
      case Data(p) => DeliverDataCredit(m, p);
      case Ctl(c) => DeliverControlCredit(m, c);
      case Unexpected =>
    }
  }

  lemma {:induction false} DeliverCredit(n: Net)
    requires CreditBoth(n) && n.b.out != []
    ensures CreditBoth(DoDeliver(n))
  {
    HandledCredit(n.(b := n.b.(out := n.b.out[1..])), n.b.out[0]);
  }

  lemma {:induction false} MoveControlCredit(n: Net, i: nat, at: nat)
    requires CreditBoth(n) && i < |n.a.pool| && at <= |n.a.out|
    ensures CreditBoth(Apply(n, SendControl(i, at)))
    ensures CreditBoth(Apply(n, LoseControl(i)))
  {
    var c := n.a.pool[i];
    SumWithout(n.a.pool, i, ControlCredit);
    SumInsert(n.a.out, at, Ctl(c), DataLen);
    SumInsert(n.a.out, at, Ctl(c), FrameCredit);
  }

  lemma {:induction false} LoseFrameCredit(n: Net, i: nat)
    requires CreditBoth(n) && i < |n.a.out|
    ensures CreditBoth(DoLoseFrame(n, i))
  {
    SumWithout(n.a.out, i, DataLen);
    SumWithout(n.a.out, i, FrameCredit);
  }

  lemma {:induction false} ReconnectCredit(n: Net)
    requires CreditBoth(n)
    ensures CreditBoth(Apply(n, Reconnect))
  {
    ForgiveKeepsCredit(n);
    QuietControl(ForgiveCredit(n), [Resume, FlowOn]);
  }

  lemma {:induction false} StepCredit(n: Net, act: Action)
    requires CreditBoth(n) && Enabled(n, act)
    ensures CreditBoth(Apply(n, act))
  {
    match act {
      case BeginWrite(p) => BeginWriteCredit(n, p);
      case SendOk(at) => SendCredit(n, at);
      case SendLost => SendLostCredit(n);
      case SendFail => SendFailCredit(n);
      case BeginCloseWrite =>
      case ReadSome(room) => ReadCredit(n, room);
      case Deliver => DeliverCredit(n);
      case SendControl(i, at) => MoveControlCredit(n, i, at);
      case LoseControl(i) => MoveControlCredit(n, i, 0);
      case LoseFrame(i) => LoseFrameCredit(n, i);
      case Reconnect => ReconnectCredit(n);
      case StartFail(_) =>
      case FailReader =>
      case FailWriter =>
      case Say(c) => QuietControl(n, [c]);
    }
  }
}
