/** What the bytes themselves do in the two-endpoint system: order, loss and the
    end of the stream. */
module FlowContent {
  import opened Bytes
  import opened Sequences
  import opened FlowStream
  import opened FlowNet

  function DataOf(frames: seq<Frame>): (r: seq<Chunk>)
  {
    if frames == [] then []
    else (if frames[0].Data? then [frames[0].payload] else []) + DataOf(frames[1..])
  }

  lemma {:induction false} DataOfConcat(a: seq<Frame>, b: seq<Frame>)
    ensures DataOf(a + b) == DataOf(a) + DataOf(b)
  {
    if a == [] {
      assert a + b == b;
    } else {
      assert (a + b)[0] == a[0] && (a + b)[1..] == a[1..] + b;
      DataOfConcat(a[1..], b);
      Assoc(if a[0].Data? then [a[0].payload] else [], DataOf(a[1..]), DataOf(b));
    }
  }

  lemma {:induction false} DataOfNone(frames: seq<Frame>)
    requires forall f | f in frames :: !f.Data?
    ensures DataOf(frames) == []
  {
    if frames != [] { DataOfNone(frames[1..]); }
  }

  lemma {:induction false} DataOfSnoc(frames: seq<Frame>, f: Frame)
    ensures DataOf(frames + [f]) == DataOf(frames) + (if f.Data? then [f.payload] else [])
  {
    DataOfConcat(frames, [f]);
    assert DataOf([f]) == if f.Data? then [f.payload] + DataOf([]) else DataOf([]);
  }

  lemma {:induction false} DataOfWithout(frames: seq<Frame>, i: nat)
    requires i < |frames|
    ensures
      var front := DataOf(frames[..i]);
      && DataOf(Without(frames, i)) == front + DataOf(frames[i + 1..])
      && DataOf(frames) == front + (if frames[i].Data? then [frames[i].payload] else []) + DataOf(frames[i + 1..])
  {
    var front, f, back := frames[..i], frames[i], frames[i + 1..];
    assert DataOf(Without(frames, i)) == DataOf(front) + DataOf(back) by { DataOfConcat(front, back); }
    assert frames == (front + [f]) + back;
    DataOfConcat(front + [f], back);
    DataOfSnoc(front, f);
  }

  lemma {:induction false} DataOfInsert(frames: seq<Frame>, at: nat, f: Frame)
    requires at <= |frames|
    ensures Quiet(frames[at..]) ==> DataOf(Insert(frames, at, f)) == DataOf(frames + [f])
    ensures !f.Data? ==> DataOf(Insert(frames, at, f)) == DataOf(frames)
  {
    var front, back := frames[..at], frames[at..];
    assert frames == front + back;
    DataOfConcat(front, back);
    DataOfConcat(front + [f], back);
    DataOfSnoc(front, f);
    DataOfSnoc(frames, f);
    if Quiet(back) { DataOfNone(back); }
  }

  const EOF_FRAME := Ctl(Eof)

  predicate NoDataAfterEof(frames: seq<Frame>)
  {
    forall i, j | 0 <= i < j < |frames| :: frames[i] == EOF_FRAME ==> !frames[j].Data?
  }

  /** The data flow into a receiver in state `st` from a channel `out`: what was
      read plus what is unread is what was accepted; accepted and travelling
      chunks embed in order into the written ones, and are all of them when no
      frame was dropped. */
  ghost predicate Ordered(out: seq<Frame>, st: State, f: Flow)
  {
    && f.delivered + Unread(st) == Flatten(f.accepted)
    && Subseq(f.accepted + DataOf(out), f.written)
    && (f.dropped == 0 ==> f.accepted + DataOf(out) == f.written)
  }

  /** Once `x` has announced the end of its data, no more data can follow. */
  predicate Ended(x: Node, y: Node, f: Flow)
  {
    && Eof !in x.pool
    && NoDataAfterEof(x.out)
    && (x.pend.SendingEof? || EOF_FRAME in x.out || f.eofSeen ==> x.st.writeClosed && !x.pend.SendingData?)
    && (f.eofSeen ==> forall g | g in x.out :: !g.Data?)
    && (y.st.closedRead && !y.st.closed ==> f.eofSeen)
    && (!y.fail.NoFailure? ==> y.st.closed)
  }

  ghost predicate OrderedBoth(n: Net)
  {
    Ordered(n.a.out, n.b.st, n.ab) && Ordered(n.b.out, n.a.st, n.ba)
  }

  predicate EndedBoth(n: Net)
  {
    Ended(n.a, n.b, n.ab) && Ended(n.b, n.a, n.ba)
  }

  /** Everything that holds in every reachable state. */
  ghost predicate Inv(n: Net)
  {
    CreditBoth(n) && OrderedBoth(n) && EndedBoth(n)
  }

  /** Ordered depends on the flow's content fields only. */
  lemma OrderedSame(out: seq<Frame>, out': seq<Frame>, st: State, st': State, f: Flow, f': Flow)
    requires Ordered(out, st, f)
    requires DataOf(out') == DataOf(out)
    requires st'.readQueue == st.readQueue && st'.readOffset == st.readOffset
    requires f'.written == f.written && f'.accepted == f.accepted && f'.delivered == f.delivered
    requires f'.dropped == f.dropped
    ensures Ordered(out', st', f')
  {
  }

  lemma {:induction false} WriteKept(out: seq<Frame>, st: State, f: Flow, p: Chunk)
    requires Ordered(out, st, f)
    ensures Ordered(out + [Data(p)], st, f.(written := f.written + [p]))
    ensures Ordered(out, st, f.(written := f.written + [p], dropped := f.dropped + 1, lost := f.lost + |p|))
  {
    var travelling := f.accepted + DataOf(out);
    DataOfSnoc(out, Data(p));
    SubseqSnoc(travelling, f.written, p);
    assert f.accepted + DataOf(out + [Data(p)]) == travelling + [p];
  }

  lemma {:induction false} ReadKept(out: seq<Frame>, st: State, f: Flow, room: nat)
    requires Ordered(out, st, f) && Ok(st) && st.readQueue != []
    ensures
      var (st', outcome, _) := ReadStep(st, room);
      outcome.Got? && Ordered(out, st', f.(delivered := f.delivered + outcome.bytes))
  {
    ReadKeepsBytes(st, room);
    var (st', outcome, _) := ReadStep(st, room);
    Assoc(f.delivered, outcome.bytes, Unread(st'));
  }

  lemma {:induction false} AcceptKept(rest: seq<Frame>, st: State, st': State, f: Flow, p: Chunk)
    requires Ordered([Data(p)] + rest, st, f)
    requires Unread(st') == Unread(st) + p
    ensures Ordered(rest, st', f.(accepted := f.accepted + [p]))
  {
    FlattenSnoc(f.accepted, p);
    DataOfConcat([Data(p)], rest);
    assert f.accepted + DataOf([Data(p)] + rest) == f.accepted + [p] + DataOf(rest);
    Assoc(f.delivered, Unread(st), p);
  }

  /** Frame `i` disappears from the channel, or is refused by the receiver. */
  lemma {:induction false} DropKept(out: seq<Frame>, i: nat, st: State, f: Flow)
    requires Ordered(out, st, f) && i < |out| && out[i].Data?
    ensures Ordered(Without(out, i), st, f.(dropped := f.dropped + 1, lost := f.lost + |out[i].payload|))
  {
    FewerStillEmbed(f.accepted, out, i, f.written);
  }

  lemma {:induction false} FewerStillEmbed(front: seq<Chunk>, out: seq<Frame>, i: nat, written: seq<Chunk>)
    requires i < |out| && Subseq(front + DataOf(out), written)
    ensures Subseq(front + DataOf(Without(out, i)), written)
  {
    if out[i].Data? {
      var k := DropPlace(front, out, i);
      SubseqWithout(front + DataOf(out), k);
      SubseqTrans(front + DataOf(Without(out, i)), front + DataOf(out), written);
    } else {
      QuietWithout(out, i);
    }
  }

  /** Where the chunk of frame `i` stands behind `front`. */
  lemma {:induction false} DropPlace(front: seq<Chunk>, out: seq<Frame>, i: nat) returns (k: nat)
    requires i < |out| && out[i].Data?
    ensures k < |front + DataOf(out)| && Without(front + DataOf(out), k) == front + DataOf(Without(out, i))
  {
    DataOfWithout(out, i);
    k := |front| + |DataOf(out[..i])|;
    assert Without(front + DataOf(out), k) == front + DataOf(Without(out, i));
  }

  lemma {:induction false} QuietWithout(out: seq<Frame>, i: nat)
    requires i < |out| && !out[i].Data?
    ensures DataOf(Without(out, i)) == DataOf(out)
  {
    DataOfWithout(out, i);
  }

  lemma {:induction false} SendOrdered(n: Net, at: nat)
    requires OrderedBoth(n) && Enabled(n, SendOk(at))
    ensures OrderedBoth(DoSend(n, at))
  {
    var frame, r := PendingFrame(n.a.pend), DoSend(n, at);
    DataOfInsert(n.a.out, at, frame);
    if frame.Data? {
      WriteKept(n.a.out, n.b.st, n.ab, frame.payload);
      OrderedSame(n.a.out + [frame], r.a.out, n.b.st, n.b.st, r.ab, r.ab);
    } else {
      OrderedSame(n.a.out, r.a.out, n.b.st, n.b.st, n.ab, n.ab);
    }
  }

  lemma {:induction false} SendLostOrdered(n: Net)
    requires OrderedBoth(n) && !n.a.pend.Idle?
    ensures OrderedBoth(DoSendLost(n))
  {
    if n.a.pend.SendingData? {
      WriteKept(n.a.out, n.b.st, n.ab, n.a.pend.payload);
    }
  }

  lemma {:induction false} RefuseKept(rest: seq<Frame>, st: State, f: Flow, p: Chunk)
    requires Ordered([Data(p)] + rest, st, f)
    ensures Ordered(rest, st, f.(dropped := f.dropped + 1, lost := f.lost + |p|))
  {
    DropKept([Data(p)] + rest, 0, st, f);
    assert Without([Data(p)] + rest, 0) == rest;
  }

  /** The history after a data frame was accepted or refused. */
  function Arrived(f: Flow, p: Chunk, arrival: Arrival): (r: Flow)
  {
    if arrival.Accepted? then f.(accepted := f.accepted + [p]) else f.(lost := f.lost + |p|, dropped := f.dropped + 1)
  }

  lemma {:induction false} ArrivalKept(out: seq<Frame>, st: State, f: Flow, p: Chunk)
    requires Ordered(out, st, f) && Ok(st) && out != [] && out[0] == Data(p)
    ensures Ordered(out[1..], ReceiveData(st, p).0, Arrived(f, p, ReceiveData(st, p).1))
  {
    assert out == [Data(p)] + out[1..];
    ReceiveAppends(st, p);
    if ReceiveData(st, p).1.Accepted? {
      AcceptKept(out[1..], st, ReceiveData(st, p).0, f, p);
    } else {
      RefuseKept(out[1..], st, f, p);
    }
  }

  lemma {:induction false} DeliverDataOrdered(n: Net, p: Chunk)
    requires OrderedBoth(n) && Ok(n.a.st) && n.b.out != [] && n.b.out[0] == Data(p)
    ensures OrderedBoth(DoDeliver(n))
  {
    ArrivalKept(n.b.out, n.a.st, n.ba, p);
    var (st, arrival) := ReceiveData(n.a.st, p);
    var a, out, f := n.a.(st := st), n.b.out[1..], Arrived(n.ba, p, arrival);
    OrderedSame(out, out, st, BeginFail(a, Some(QueueOverflow)).st, f, f);
    assert DoDeliver(n) ==
           Net(if arrival.Overflow? then BeginFail(a, Some(QueueOverflow)) else a, n.b.(out := out), n.ab, f);
  }

  /** A control frame leaves channels, queues and content history alone. */
  lemma ControlIsQuiet(m: Net, c: Control)
    requires 0 <= m.a.st.inFlight
    ensures
      var r := DoDeliverControl(m, c);
      && r.a.out == m.a.out && r.b == m.b
      && r.a.st.readQueue == m.a.st.readQueue && r.a.st.readOffset == m.a.st.readOffset
      && r.ab.written == m.ab.written && r.ab.accepted == m.ab.accepted
      && r.ab.delivered == m.ab.delivered && r.ab.dropped == m.ab.dropped
      && r.ba == m.ba.(eofSeen := r.ba.eofSeen)
  {
  }

  lemma {:induction false} DeliverQuietOrdered(n: Net)
    requires OrderedBoth(n) && 0 <= n.a.st.inFlight && n.b.out != [] && !n.b.out[0].Data?
    ensures OrderedBoth(DoDeliver(n))
  {
    var r := DoDeliver(n);
    if n.b.out[0].Ctl? { ControlIsQuiet(n.(b := n.b.(out := n.b.out[1..])), n.b.out[0].control); }
    assert DataOf(r.b.out) == DataOf(n.b.out);
    OrderedSame(n.b.out, r.b.out, n.a.st, r.a.st, n.ba, r.ba);
    OrderedSame(n.a.out, r.a.out, n.b.st, r.b.st, n.ab, r.ab);
  }

  lemma {:induction false} LoseFrameOrdered(n: Net, i: nat)
    requires OrderedBoth(n) && i < |n.a.out|
    ensures OrderedBoth(DoLoseFrame(n, i))
  {
    var r := DoLoseFrame(n, i);
    if n.a.out[i].Data? {
      DropKept(n.a.out, i, n.b.st, n.ab);
    } else {
      QuietWithout(n.a.out, i);
      OrderedSame(n.a.out, r.a.out, n.b.st, r.b.st, n.ab, r.ab);
      OrderedSame(n.b.out, r.b.out, n.a.st, r.a.st, n.ba, r.ba);
    }
  }

  /** Actions that move no data. */
  lemma {:induction false} QuietOrdered(n: Net, act: Action)
    requires OrderedBoth(n) && Ok(n.a.st) && Enabled(n, act)
    requires !act.SendOk? && !act.SendLost? && !act.ReadSome? && !act.Deliver? && !act.LoseFrame?
    ensures OrderedBoth(Apply(n, act))
  {
    if act.SendControl? { DataOfInsert(n.a.out, act.at, Ctl(n.a.pool[act.index])); }
    var r := Apply(n, act);
    OrderedSame(n.a.out, r.a.out, n.b.st, r.b.st, n.ab, r.ab);
    OrderedSame(n.b.out, r.b.out, n.a.st, r.a.st, n.ba, r.ba);
  }

  lemma {:induction false} StepOrdered(n: Net, act: Action)
    requires OrderedBoth(n) && Ok(n.a.st) && Enabled(n, act)
    ensures OrderedBoth(Apply(n, act))
  {
    match act {
      case SendOk(at) => SendOrdered(n, at);
      case SendLost => SendLostOrdered(n);
      case ReadSome(room) => ReadKept(n.b.out, n.a.st, n.ba, room);
      case Deliver =>
        if n.b.out[0].Data? {
          DeliverDataOrdered(n, n.b.out[0].payload);
        } else {
          DeliverQuietOrdered(n);
        }
      case LoseFrame(i) => LoseFrameOrdered(n, i);
      case _ => QuietOrdered(n, act);
    }
  }

  /** A frame that is no data behind the end of the data leaves the end where it is. */
  lemma {:induction false} InsertEnded(out: seq<Frame>, at: nat, f: Frame)
    requires NoDataAfterEof(out) && at <= |out|
    requires f.Data? ==> EOF_FRAME !in out
    requires f == EOF_FRAME ==> Quiet(out[at..])
    ensures NoDataAfterEof(Insert(out, at, f))
    ensures forall g :: g in Insert(out, at, f) <==> g in out || g == f
  {
    var out' := Insert(out, at, f);
    assert forall k | 0 <= k < |out'| :: out'[k] == if k < at then out[k] else if k == at then f else out[k - 1];
    assert forall k | at <= k < |out| :: out[at..][k - at] == out[k];
    forall g | g in out || g == f ensures g in out' {
      if g != f {
        var k :| 0 <= k < |out| && out[k] == g;
        assert out'[if k < at then k else k + 1] == g;
      } else {
        assert out'[at] == g;
      }
    }
  }

  lemma {:induction false} SendEnded(n: Net, at: nat)
    requires EndedBoth(n) && Enabled(n, SendOk(at))
    ensures EndedBoth(DoSend(n, at))
  {
    InsertEnded(n.a.out, at, PendingFrame(n.a.pend));
  }

  lemma {:induction false} TailEnded(x: Node, y: Node, f: Flow)
    requires Ended(x, y, f) && x.out != []
    ensures Ended(x.(out := x.out[1..]), y, f)
    ensures x.out[0] == EOF_FRAME ==>
              Ended(x.(out := x.out[1..]), y.(st := y.st.(closedRead := true)), f.(eofSeen := true))
  {
    assert forall g | g in x.out[1..] :: g in x.out;
    assert x.out[0] in x.out;
  }

  lemma DeliverControlEnded(m: Net, c: Control)
    requires 0 <= m.a.st.inFlight && EndedBoth(m) && c != Eof
    ensures EndedBoth(DoDeliverControl(m, c))
  {
  }

  lemma {:induction false} DeliverEnded(n: Net)
    requires CreditBoth(n) && EndedBoth(n) && n.b.out != []
    ensures EndedBoth(DoDeliver(n))
  {
    TailEnded(n.b, n.a, n.ba);
    var m := n.(b := n.b.(out := n.b.out[1..]));
    match n.b.out[0] {
      case Data(p) => assert EndedBoth(DoDeliverData(m, p));
      case Ctl(c) => if c != Eof { DeliverControlEnded(m, c); }
      case Unexpected =>
    }
  }

  lemma {:induction false} ControlEnded(n: Net, i: nat, at: nat)
    requires CreditBoth(n) && EndedBoth(n) && i < |n.a.pool| && at <= |n.a.out|
    ensures EndedBoth(Apply(n, SendControl(i, at)))
    ensures EndedBoth(Apply(n, LoseControl(i)))
  {
    assert n.a.pool[i] in n.a.pool;
    InsertEnded(n.a.out, at, Ctl(n.a.pool[i]));
  }

  lemma {:induction false} LoseFrameEnded(n: Net, i: nat)
    requires CreditBoth(n) && EndedBoth(n) && i < |n.a.out|
    ensures EndedBoth(DoLoseFrame(n, i))
  {
    var out, out' := n.a.out, Without(n.a.out, i);
    assert forall g | g in out' :: g in out;
    assert forall k | 0 <= k < |out'| :: out'[k] == out[if k < i then k else k + 1];
    assert NoDataAfterEof(out');
  }

  lemma {:induction false} StepEnded(n: Net, act: Action)
    requires Inv(n) && Enabled(n, act)
    ensures EndedBoth(Apply(n, act))
  {
    match act {
      case SendOk(at) => SendEnded(n, at);
      case ReadSome(room) => ReadAcknowledges(n.a.st, room);
      case Deliver => DeliverEnded(n);
      case SendControl(i, at) => ControlEnded(n, i, at);
      case LoseControl(i) => ControlEnded(n, i, 0);
      case LoseFrame(i) => LoseFrameEnded(n, i);
      case _ =>
    }
  }
}
