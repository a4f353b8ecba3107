/** What a reader learns of a failure, in every run over any transports. */
module FlowFailures {
  import opened Bytes
  import opened Sequences
  import opened FlowStream
  import opened FlowNet
  import opened FlowTransports

  /** The endpoint's flags agree with how far its failure has got: nothing before it,
      no fault before the reader is told, and then exactly the fault it began with. */
  predicate Told(st: State, fail: Failure)
  {
    match fail
    case NoFailure => !st.closed && st.readErr.None?
    case Failing(_) => st.closed && st.readErr.None?
    case ReaderFailed(fault) => st.closed && st.closedRead && st.readErr == fault
    case Failed(fault) => st.closed && st.closedRead && st.readErr == fault
  }

  /** The failure goes on from `f` to `g` with the fault it began with. */
  predicate Onward(f: Failure, g: Failure)
  {
    f.NoFailure? || (!g.NoFailure? && g.fault == f.fault && (f.Failing? || !g.Failing?))
  }

  /** What a step keeps of the acting endpoint; its peer's failure is not touched. */
  predicate KeepsFailure(n: Net, r: Net)
  {
    && Told(r.a.st, r.a.fail) && Onward(n.a.fail, r.a.fail)
    && r.b.st == n.b.st && r.b.fail == n.b.fail
  }

  lemma {:induction false} HandledKeepsFailure(n: Net, f: Frame)
    requires Ok(n.a.st) && Told(n.a.st, n.a.fail)
    ensures KeepsFailure(n, Handled(n, f))
  {
    match f {
      case Data(p) =>
      case Ctl(c) => match c { case Ack(_) => case _ => }
      case Unexpected =>
    }
  }

  lemma {:induction false} ApplyKeepsFailure(n: Net, act: Action)
    requires Ok(n.a.st) && Enabled(n, act) && Told(n.a.st, n.a.fail)
    ensures KeepsFailure(n, Apply(n, act))
  {
    match act {
      case Deliver => HandledKeepsFailure(n.(b := n.b.(out := n.b.out[1..])), n.b.out[0]);
      case ReadSome(room) => ReadAcknowledges(n.a.st, room);
      case _ =>
    }
  }

  predicate AllTold(s: Wired) { Told(s.a.st, s.a.fail) && Told(s.b.st, s.b.fail) }

  predicate AllOnward(s: Wired, t: Wired) { Onward(s.a.fail, t.a.fail) && Onward(s.b.fail, t.b.fail) }

  lemma {:induction false} StepKeepsFailures(s: Wired, w: WireAction, client: bool)
    requires Ok(s.a.st) && CanStep(s, w, client) && AllTold(s)
    ensures AllTold(Step(s, w, client)) && AllOnward(s, Step(s, w, client))
  {
    match w {
      case Local(act) => ApplyKeepsFailure(View(s, [], []), act);
      case Put => ApplyKeepsFailure(View(s, [], []), SendOk(0));
      case PutControl(i, _) => ApplyKeepsFailure(View(s, [], []), SendControl(i, 0));
      case Take => ApplyKeepsFailure(View(s, [], [s.b.lines[s.a.port.source.value][0]]), Deliver);
      case Drop(k, i) => ApplyKeepsFailure(View(s, [s.a.lines[k][i]], []), LoseFrame(0));
      case _ =>
    }
  }

  lemma {:induction false} NextKeepsFailures(s: Wired, t: Wired)
    requires AllTold(s) && Next(s, t)
    ensures AllTold(t) && AllOnward(s, t)
  {
    var m :| CanMove(s, m) && t == DoMove(s, m);
    StepKeepsFailures(Toward(s, m.client), m.act, m.client);
  }

  lemma {:induction false} RunTold(run: seq<Wired>, i: nat)
    requires IsRun(run) && i < |run|
    ensures AllTold(run[i])
  {
    if i > 0 {
      RunTold(run, i - 1);
      assert Next(run[i - 1], run[i]);
      NextKeepsFailures(run[i - 1], run[i]);
    }
  }

  lemma {:induction false} RunOnward(run: seq<Wired>, i: nat, j: nat)
    requires IsRun(run) && i <= j < |run|
    ensures AllOnward(run[i], run[j])
    decreases j - i
  {
    if i < j {
      StepOnward(run, i + 1);
      RunOnward(run, i + 1, j);
      OnwardTrans(run[i], run[i + 1], run[j]);
    }
  }

  lemma OnwardTrans(s: Wired, t: Wired, u: Wired)
    requires AllOnward(s, t) && AllOnward(t, u)
    ensures AllOnward(s, u)
  {
  }

  lemma {:induction false} StepOnward(run: seq<Wired>, j: nat)
    requires IsRun(run) && 0 < j < |run|
    ensures AllOnward(run[j - 1], run[j])
  {
    RunTold(run, j - 1);
    assert Next(run[j - 1], run[j]);
    NextKeepsFailures(run[j - 1], run[j]);
  }

  /** The first failure is the one that is reported: once an endpoint has begun to fail
      with some fault, every read past the queued bytes from the moment the reader has
      been told, at any later time of any run and whatever else fails, reports exactly
      that fault; a failure without one, a local close, reads as end-of-file. */
  lemma {:induction false} FirstFailureReported(run: seq<Wired>, i: nat, j: nat, up: bool, room: nat)
    requires IsRun(run) && i <= j < |run|
    requires !Toward(run[i], up).b.fail.NoFailure? && !Toward(run[j], up).b.fail.Failing?
    requires Ok(Toward(run[j], up).b.st) && Toward(run[j], up).b.st.readQueue == []
    ensures
      var fault := Toward(run[i], up).b.fail.fault;
      ReadStep(Toward(run[j], up).b.st, room).1 == if fault.Some? then ReadFailed(fault.value) else EndOfFile
  {
    RunOnward(run, i, j);
    RunTold(run, j);
  }

  /** A peer's abort is the fault of an open stream, an overflow of the receive queue
      another; both are told to the reader by the next failure action, whatever comes
      in between. */
  lemma {:induction false} FaultsOfFrames(n: Net, f: Frame)
    requires Ok(n.a.st) && Told(n.a.st, n.a.fail) && !n.a.st.closed
    ensures f == Ctl(Abort) ==> Handled(n, f).a.fail == Failing(Some(RemoteAbort))
    ensures f.Data? && !n.a.st.closedRead && n.a.st.readQueued + |f.payload| > 1048576 ==>
              Handled(n, f).a.fail == Failing(Some(QueueOverflow))
    ensures Handled(n, f).a.fail.NoFailure? <==>
              f != Ctl(Abort) &&
              !(f.Data? && !n.a.st.closedRead && n.a.st.readQueued + |f.payload| > 1048576)
  {
    match f {
      case Data(p) => ReceiveAppends(n.a.st, p);
      case Ctl(c) => match c { case Ack(_) => case _ => }
      case Unexpected =>
    }
  }

  /** Before any failure a reader that has drained the queue waits, or gets end-of-file
      once the peer has announced it; it never sees a fault. */
  lemma {:induction false} NoFaultUnlessFailed(run: seq<Wired>, i: nat, up: bool, room: nat)
    requires IsRun(run) && i < |run|
    requires Toward(run[i], up).b.fail.NoFailure? && Ok(Toward(run[i], up).b.st)
    ensures !ReadStep(Toward(run[i], up).b.st, room).1.ReadFailed?
  {
    RunTold(run, i);
  }
}
