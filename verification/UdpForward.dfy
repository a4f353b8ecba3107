/** One UDP association end to end: bounded queue, framing, byte stream, remote
    reader and target (session/udp.go with protocol/datagram). */
module UdpForward {
  import opened Bytes
  import opened Sequences
  import opened ByteStream
  import opened Datagram

  const QUEUE_DEPTH := 256

  /** The loop of bridgeLocalUDP that frames queued packets until a write fails;
      `packets` is what the channel yields.  What reaches the stream is a cut of the
      encoded packets, and all of them if the stream takes what it is given. */
  method ForwardQueue(packets: seq<Packet>, w: Writer) returns (taken: nat)
    modifies w
    ensures taken <= |packets|
    ensures old(w.out) <= w.out <= old(w.out) + EncodeAll(packets[..taken])
    ensures old(w.Willing(|EncodeAll(packets)|)) ==> taken == |packets| && w.out == old(w.out) + EncodeAll(packets)
  {
    taken := 0;
    EncodeSnoc([], []);
    assert packets[0..] == packets && packets[..|packets|] == packets;
    while taken < |packets|
      invariant taken <= |packets|
      invariant w.out == old(w.out) + EncodeAll(packets[..taken])
      invariant old(w.Willing(|EncodeAll(packets)|)) ==> w.Willing(|EncodeAll(packets[taken..])|)
    {
      assert packets[taken..][1..] == packets[taken + 1..];
      var before := w.out;
      var ok := Datagram.Write(w, packets[taken]);
      EncodeSnoc(packets[..taken], packets[taken]);
      assert packets[..taken] + [packets[taken]] == packets[..taken + 1];
      Assoc(old(w.out), EncodeAll(packets[..taken]), Encode(packets[taken]));
      taken := taken + 1;
      if !ok {
        return;
      }
    }
  }

  lemma {:induction false} EncodeSnoc(ps: seq<Packet>, p: Packet)
    ensures EncodeAll([]) == []
    ensures EncodeAll(ps + [p]) == EncodeAll(ps) + Encode(p)
  {
    EncodeAllConcat(ps, [p]);
    assert EncodeAll([p]) == Encode(p) + EncodeAll([]);
  }

  /** The loop of UDPForward that reads datagrams and sends them to the target,
      which may refuse one and so end the session. */
  method EmitToTarget(r: Reader, accepts: nat) returns (emitted: seq<Packet>)
    modifies r
    ensures emitted <= Packets(old(r.Rest()))
    ensures |emitted| < accepts ==> emitted == Packets(old(r.Rest()))
  {
    ghost var all := r.Rest();
    emitted := [];
    while |emitted| < accepts
      invariant Packets(all) == emitted + Packets(r.Rest())
      decreases accepts - |emitted|
    {
      var result := Datagram.Read(r);
      if !result.Got? {
        return;
      }
      Assoc(emitted, [result.payload], Packets(r.Rest()));
      emitted := emitted + [result.payload];
    }
  }

  /** The state of one association.  `arrived` are the source's datagrams, `taken`
      those the writer loop has begun to frame, `sent` the bytes in the stream so
      far, `received` those that came out at the remote end, `emitted` the packets
      handed to the target; `shed` counts datagrams that were not queued. */
  datatype Session = Session(
    arrived: seq<Packet>, queue: seq<Packet>, taken: seq<Packet>,
    sent: seq<byte>, received: seq<byte>, emitted: seq<Packet>, shed: nat)

  const NEW_SESSION := Session([], [], [], [], [], [], 0)

  datatype Action =
    | Arrive(packet: Packet)
    | Miss(packet: Packet)
    | Take
    | SendSome(count: nat)
    | CarrySome(count: nat)
    | Emit

  /** `Miss` is a datagram that finds the association already gone.  A failed
      write, a reset or a truncated stream is a run that takes no more steps of the
      kind it breaks. */
  predicate Enabled(s: Session, act: Action)
  {
    match act
    case Arrive(_) => true
    case Miss(_) => true
    case Take => s.queue != [] && s.sent == EncodeAll(s.taken)
    case SendSome(n) => |s.sent| + n <= |EncodeAll(s.taken)|
    case CarrySome(n) => |s.received| + n <= |s.sent|
    case Emit => |s.emitted| < |Packets(s.received)|
  }

  function Apply(s: Session, act: Action): (r: Session)
    requires Enabled(s, act)
  {
    match act
    case Arrive(p) =>
      if |s.queue| < QUEUE_DEPTH then s.(arrived := s.arrived + [p], queue := s.queue + [p])
      else s.(arrived := s.arrived + [p], shed := s.shed + 1)
    case Miss(p) => s.(arrived := s.arrived + [p], shed := s.shed + 1)
    case Take => s.(taken := s.taken + [s.queue[0]], queue := s.queue[1..])
    case SendSome(n) => s.(sent := EncodeAll(s.taken)[..|s.sent| + n])
    case CarrySome(n) => s.(received := s.sent[..|s.received| + n])
    case Emit => s.(emitted := s.emitted + [Packets(s.received)[|s.emitted|]])
  }

  ghost predicate Inv(s: Session)
  {
    && |s.queue| <= QUEUE_DEPTH
    && Subseq(s.taken + s.queue, s.arrived)
    && (s.shed == 0 ==> s.taken + s.queue == s.arrived)
    && s.sent <= EncodeAll(s.taken)
    && s.received <= s.sent
    && s.emitted <= Packets(s.received)
  }

  lemma {:induction false} MoreBytesMorePackets(s: seq<byte>, t: seq<byte>)
    requires s <= t
    ensures Packets(s) <= Packets(t)
    decreases |s|
  {
    var (result, rest) := ReadOne(s);
    if result.Got? {
      var (result', rest') := ReadOne(t);
      assert s[..2] == t[..2];
      var n := |result.payload|;
      assert s[2..][..n] == t[2..][..n];
      assert rest <= rest';
      MoreBytesMorePackets(rest, rest');
    }
  }

  lemma {:induction false} StepKeepsInv(s: Session, act: Action)
    requires Inv(s) && Enabled(s, act)
    ensures Inv(Apply(s, act))
  {
    var r := Apply(s, act);
    match act {
      case Arrive(p) =>
        SubseqSnoc(s.taken + s.queue, s.arrived, p);
        assert s.taken + (s.queue + [p]) == s.taken + s.queue + [p];
      case Miss(p) => SubseqSnoc(s.taken + s.queue, s.arrived, p);
      case Take =>
        assert r.taken + r.queue == s.taken + s.queue;
        EncodeAllConcat(s.taken, [s.queue[0]]);
      case SendSome(n) =>
      case CarrySome(n) => MoreBytesMorePackets(s.received, r.received);
      case Emit =>
    }
  }

  ghost predicate Next(s: Session, t: Session)
  {
    exists act :: Enabled(s, act) && t == Apply(s, act)
  }

  ghost predicate IsRun(run: seq<Session>)
  {
    && run != [] && run[0] == NEW_SESSION
    && forall i | 0 < i < |run| :: Next(run[i - 1], run[i])
  }

  lemma {:induction false} RunKeepsInv(run: seq<Session>, i: nat)
    requires IsRun(run) && i < |run|
    ensures Inv(run[i])
  {
    if i == 0 {
      PrefixIsSubseq<Packet>([], []);
      assert NEW_SESSION.taken + NEW_SESSION.queue == [];
    } else {
      RunKeepsInv(run, i - 1);
      assert Next(run[i - 1], run[i]);
      var act :| Enabled(run[i - 1], act) && run[i] == Apply(run[i - 1], act);
      StepKeepsInv(run[i - 1], act);
    }
  }

  /** Packets reach the target whole, in arrival order and at most once each, for
      any queue drops and any cutting of the byte stream. */
  lemma {:induction false} EmittedAreArrivals(run: seq<Session>, i: nat)
    requires IsRun(run) && i < |run|
    ensures Subseq(run[i].emitted, run[i].arrived)
    ensures run[i].emitted <= run[i].taken
  {
    RunKeepsInv(run, i);
    var s := run[i];
    PrefixYieldsPrefix(s.taken, s.received);
    PrefixIsSubseq(s.emitted, s.taken + s.queue);
    SubseqTrans(s.emitted, s.taken + s.queue, s.arrived);
  }

  /** A datagram is shed only if its association is gone or 256 others are waiting. */
  lemma ShedOnlyWhenFull(s: Session, act: Action)
    requires Inv(s) && Enabled(s, act)
    ensures Apply(s, act).shed != s.shed <==> act.Miss? || (act.Arrive? && |s.queue| == 256)
  {
  }

  /** With nothing shed, a writer that has framed every datagram, a stream that has
      carried every byte and a target that has taken every packet, exactly the
      datagrams of the source have reached the target. */
  lemma {:induction false} DeliveredInFull(run: seq<Session>, i: nat)
    requires IsRun(run) && i < |run|
    requires
      var s := run[i];
      s.shed == 0 && s.queue == [] && s.received == EncodeAll(s.taken) && !Enabled(s, Emit)
    ensures run[i].emitted == run[i].arrived
  {
    RunKeepsInv(run, i);
    FullSession(run[i]);
  }

  lemma {:induction false} FullSession(s: Session)
    requires s.queue == [] && s.taken + s.queue == s.arrived && s.received == EncodeAll(s.taken)
    requires s.emitted <= Packets(s.received) && |s.emitted| >= |Packets(s.received)|
    ensures s.emitted == s.arrived
  {
    PrefixYieldsPrefix(s.taken, s.received);
    assert s.taken + s.queue == s.taken;
  }
}
