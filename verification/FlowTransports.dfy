/** The two endpoints over a sequence of transports.

    Transports are numbered in the order the client dials them and count once the
    listener has admitted their handshake; it runs at most two for one client, and a
    handshake lasts until the transport has been attached or given up.  Every
    endpoint has one queue of frames for each transport.  A write picks the transport its link
    holds and puts its frame there later, when the link may have moved on; control
    frames of other goroutines go to any transport used so far.  The forwarder of
    an endpoint takes frames from the one transport it reads.  Steps of the
    endpoints themselves are those of FlowNet, taken with no frame in between or
    with the one frame they move. */
module FlowTransports {
  import opened Bytes
  import opened Sequences
  import opened PeerLinks
  import opened FlowStream
  import opened FlowNet
  import HandshakeGates

  type Lines = seq<seq<Frame>>

  /** `lines[k]` are the frames this endpoint put on transport k and that have not
      arrived, `joined` the transports it attached, in order, and `via` the
      transport picked by the pending write. */
  datatype Host = Host(
    st: State, pend: Pending, pool: seq<Control>, fail: Failure,
    lines: Lines, port: Port, joined: seq<nat>, via: Option<nat>)

  /** `a` is the client, which dials; `b` is the listener; `shaking` are the transports
      in a handshake. */
  datatype Wired = Wired(a: Host, b: Host, ab: Flow, ba: Flow, shaking: set<nat>)

  function Flip(s: Wired): (r: Wired) { Wired(s.b, s.a, s.ba, s.ab, s.shaking) }

  const DIALER := Host(FRESH, Idle, [FlowOn], NoFailure, [[]], Port(Some(0), Some(0), {0}), [0], None)
  const ANSWERER := Host(FRESH, Idle, [FlowOn], NoFailure, [[]], Port(None, None, {}), [], None)
  const OPENING := Wired(DIALER, ANSWERER, EMPTY_FLOW, EMPTY_FLOW, {0})

  datatype WireAction =
    | Local(act: Action)
    | Pick | Put
    | PutControl(index: nat, line: nat)
    | Take
    | Drop(line: nat, index: nat)
    | Shift(port: Port)
    | Dial
    | EndHandshake(line: nat)

  /** Actions of FlowNet that move no frame. */
  predicate IsLocal(act: Action)
  {
    !act.SendOk? && !act.SendLost? && !act.Deliver? && !act.SendControl? && !act.LoseFrame?
  }

  function Bare(h: Host, out: seq<Frame>): (r: Node) { Node(h.st, h.pend, h.pool, out, h.fail) }

  function View(s: Wired, out: seq<Frame>, into: seq<Frame>): (r: Net)
  {
    Net(Bare(s.a, out), Bare(s.b, into), s.ab, s.ba)
  }

  /** What FlowNet's step did to the acting endpoint and to the histories. */
  function Update(s: Wired, n: Net): (r: Wired)
  {
    s.(a := s.a.(st := n.a.st, pend := n.a.pend, pool := n.a.pool, fail := n.a.fail,
                 via := if n.a.pend.Idle? then None else s.a.via),
       ab := n.ab, ba := n.ba)
  }

  /** When `a` can act, as the client or in the listener's place.  The client
      attaches only its latest dial, and dials only with no transport left; the
      listener attaches from a handshake. */
  predicate CanStep(s: Wired, w: WireAction, client: bool)
  {
    match w
    case Local(act) => IsLocal(act) && Enabled(View(s, [], []), act)
    case Pick => !s.a.pend.Idle? && s.a.via.None? && s.a.port.target.Some?
    case Put => !s.a.pend.Idle? && s.a.via.Some? && s.a.via.value < |s.a.lines|
    case PutControl(i, k) => i < |s.a.pool| && k in s.a.port.used && k < |s.a.lines|
    case Take =>
      s.a.port.source.Some? && s.a.port.source.value < |s.b.lines| && s.b.lines[s.a.port.source.value] != []
    case Drop(k, i) => k < |s.a.lines| && i < |s.a.lines[k]|
    case Shift(port) =>
      && Shifts(s.a.port, port) && (forall k | k in port.used :: k < |s.a.lines|)
      && (Attaches(s.a.port, port) ==>
            if client then port.source.value == |s.a.lines| - 1 else port.source.value in s.shaking)
    case Dial =>
      && client && s.a.port.source.None? && s.a.port.target.None?
      && |s.shaking| < HandshakeGates.MAX_HANDSHAKES_PEER
    case EndHandshake(k) => !client
  }

  function Appended(lines: Lines, k: nat, frames: seq<Frame>): (r: Lines)
    requires k < |lines|
  {
    lines[k := lines[k] + frames]
  }

  function DoPut(s: Wired): (r: Wired)
    requires Ok(s.a.st) && CanStep(s, Put, false)
  {
    var n := Apply(View(s, [], []), SendOk(0));
    var r := Update(s, n);
    r.(a := r.a.(lines := Appended(s.a.lines, s.a.via.value, n.a.out)))
  }

  function DoPutControl(s: Wired, i: nat, k: nat): (r: Wired)
    requires Ok(s.a.st) && CanStep(s, PutControl(i, k), false)
  {
    var n := Apply(View(s, [], []), SendControl(i, 0));
    var r := Update(s, n);
    r.(a := r.a.(lines := Appended(s.a.lines, k, n.a.out)))
  }

  function DoTake(s: Wired): (r: Wired)
    requires Ok(s.a.st) && CanStep(s, Take, false)
  {
    var k := s.a.port.source.value;
    var r := Update(s, Apply(View(s, [], [s.b.lines[k][0]]), Deliver));
    r.(b := r.b.(lines := s.b.lines[k := s.b.lines[k][1..]]))
  }

  function DoDrop(s: Wired, k: nat, i: nat): (r: Wired)
    requires Ok(s.a.st) && CanStep(s, Drop(k, i), false)
  {
    var r := Update(s, Apply(View(s, [s.a.lines[k][i]], []), LoseFrame(0)));
    r.(a := r.a.(lines := s.a.lines[k := Without(s.a.lines[k], i)]))
  }

  function DoShift(s: Wired, port: Port): (r: Wired)
  {
    s.(a := s.a.(port := port,
                 joined := if Attaches(s.a.port, port) then s.a.joined + [port.source.value] else s.a.joined))
  }

  function Step(s: Wired, w: WireAction, client: bool): (r: Wired)
    requires Ok(s.a.st) && CanStep(s, w, client)
  {
    match w
    case Local(act) => Update(s, Apply(View(s, [], []), act))
    case Pick => s.(a := s.a.(via := s.a.port.target))
    case Put => DoPut(s)
    case PutControl(i, k) => DoPutControl(s, i, k)
    case Take => DoTake(s)
    case Drop(k, i) => DoDrop(s, k, i)
    case Shift(port) => DoShift(s, port)
    case Dial =>
      s.(a := s.a.(lines := s.a.lines + [[]]), b := s.b.(lines := s.b.lines + [[]]),
          shaking := s.shaking + {|s.a.lines|})
    case EndHandshake(k) => s.(shaking := s.shaking - {k})
  }

  /** One action by the client or by the listener. */
  datatype WireMove = WireMove(client: bool, act: WireAction)

  predicate CanMove(s: Wired, m: WireMove)
  {
    Ok(s.a.st) && Ok(s.b.st) && CanStep(if m.client then s else Flip(s), m.act, m.client)
  }

  function DoMove(s: Wired, m: WireMove): (r: Wired)
    requires CanMove(s, m)
  {
    if m.client then Step(s, m.act, true) else Flip(Step(Flip(s), m.act, false))
  }

  ghost predicate Next(s: Wired, t: Wired)
  {
    exists m :: CanMove(s, m) && t == DoMove(s, m)
  }

  ghost predicate IsRun(run: seq<Wired>)
  {
    && run != [] && run[0] == OPENING
    && forall i | 0 < i < |run| :: Next(run[i - 1], run[i])
  }

  ghost predicate Reached(s: Wired)
  {
    exists run :: IsRun(run) && run[|run| - 1] == s
  }

  /** The same state with the sender of the data first: the client if `up`. */
  function Toward(s: Wired, up: bool): (r: Wired) { if up then s else Flip(s) }
}
