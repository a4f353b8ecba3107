/** Flow control over changing transports.  Credit does not depend on the order in
    which frames arrive, so its results hold in every run of FlowTransports, whatever
    the order in which transports are attached. */
module FlowAccounts {
  import opened Sequences
  import opened FlowStream
  import opened FlowNet
  import opened FlowTransports
  import opened FlowRefinement
  import FlowTheorems

  /** Everything an endpoint has on any transport. */
  function Loaded(h: Host): (r: Node) { Bare(h, Flatten(h.lines)) }

  function Whole(s: Wired): (r: Net) { Net(Loaded(s.a), Loaded(s.b), s.ab, s.ba) }

  predicate Accounted(s: Wired) { CreditBoth(Whole(s)) }

  lemma {:induction false} LocalAccounts(s: Wired, act: Action)
    requires Accounted(s) && CanStep(s, Local(act), false)
    ensures Accounted(Update(s, Apply(View(s, [], []), act)))
  {
    var n, x, y := View(s, [], []), Flatten(s.a.lines), Flatten(s.b.lines);
    LocalFrame(n, act, x, y, [], []);
    LocalLeaves(n, act);
    assert Dress(n, x, y, [], []) == Whole(s);
    StepCredit(Whole(s), act);
    assert Whole(Update(s, Apply(n, act))) == Dress(Apply(n, act), x, y, [], []);
  }

  lemma {:induction false} PutAccounts(s: Wired)
    requires Accounted(s) && CanStep(s, Put, false)
    ensures Accounted(DoPut(s))
  {
    var k := s.a.via.value;
    PutShape(s);
    FlattenInsert(s.a.lines, k, |s.a.lines[k]|, PendingFrame(s.a.pend));
    SendCredit(Whole(s), Place(s.a.lines, k, |s.a.lines[k]|));
    assert Whole(DoPut(s)) == DoSend(Whole(s), Place(s.a.lines, k, |s.a.lines[k]|));
  }

  lemma {:induction false} PutControlAccounts(s: Wired, i: nat, k: nat)
    requires Accounted(s) && CanStep(s, PutControl(i, k), false)
    ensures Accounted(DoPutControl(s, i, k))
  {
    var at := Place(s.a.lines, k, |s.a.lines[k]|);
    PutControlShape(s, i, k);
    FlattenInsert(s.a.lines, k, |s.a.lines[k]|, Ctl(s.a.pool[i]));
    MoveControlCredit(Whole(s), i, at);
    assert Whole(DoPutControl(s, i, k)) == Apply(Whole(s), SendControl(i, at));
  }

  lemma {:induction false} DropAccounts(s: Wired, k: nat, i: nat)
    requires Accounted(s) && CanStep(s, Drop(k, i), false)
    ensures Accounted(DoDrop(s, k, i))
  {
    DropShape(s, k, i);
    FlattenWithout(s.a.lines, k, i);
    LoseFrameCredit(Whole(s), Place(s.a.lines, k, i));
    assert Whole(DoDrop(s, k, i)) == DoLoseFrame(Whole(s), Place(s.a.lines, k, i));
  }

  lemma {:induction false} TakeAccounts(s: Wired)
    requires Accounted(s) && CanStep(s, Take, false)
    ensures Accounted(DoTake(s))
  {
    var k := s.a.port.source.value;
    var f, at, out := s.b.lines[k][0], Place(s.b.lines, k, 0), Flatten(s.b.lines);
    FlattenWithout(s.b.lines, k, 0);
    assert Without(s.b.lines[k], 0) == s.b.lines[k][1..];
    var n := Whole(s).(b := Bare(s.b, Without(out, at)));
    SumWithout(out, at, DataLen);
    SumWithout(out, at, FrameCredit);
    assert CreditTaken(n, f);
    HandledCredit(n, f);
    TakenWhole(s, f, Without(out, at));
  }

  lemma {:induction false} TakenWhole(s: Wired, f: Frame, rest: seq<Frame>)
    requires Ok(s.a.st) && CanStep(s, Take, false) && f == s.b.lines[s.a.port.source.value][0]
    requires rest == Flatten(s.b.lines[s.a.port.source.value := s.b.lines[s.a.port.source.value][1..]])
    ensures Whole(DoTake(s)) == Handled(Whole(s).(b := Bare(s.b, rest)), f)
  {
    var n, x := View(s, [], []), Flatten(s.a.lines);
    TakeShape(s);
    HandledFrame(n, f, x, rest, [], []);
    HandledLeaves(n, f);
    assert Dress(n, x, rest, [], []) == Whole(s).(b := Bare(s.b, rest));
  }

  lemma {:induction false} DialAccounts(s: Wired)
    requires Accounted(s) && CanStep(s, Dial, true)
    ensures Accounted(Step(s, Dial, true))
  {
    FlattenSnoc(s.a.lines, []);
    FlattenSnoc(s.b.lines, []);
    assert Whole(Step(s, Dial, true)) == Whole(s);
  }

  lemma {:induction false} StepAccounts(s: Wired, w: WireAction, client: bool)
    requires Accounted(s) && CanStep(s, w, client)
    ensures Accounted(Step(s, w, client))
  {
    match w {
      case Local(act) => LocalAccounts(s, act);
      case Put => PutAccounts(s);
      case PutControl(i, k) => PutControlAccounts(s, i, k);
      case Take => TakeAccounts(s);
      case Drop(k, i) => DropAccounts(s, k, i);
      case Dial => DialAccounts(s);
      case _ => assert Whole(Step(s, w, client)) == Whole(s);
    }
  }

  lemma {:induction false} NextAccounts(s: Wired, t: Wired)
    requires Accounted(s) && Next(s, t)
    ensures Accounted(t)
  {
    var m :| CanMove(s, m) && t == DoMove(s, m);
    StepAccounts(Toward(s, m.client), m.act, m.client);
  }

  lemma {:induction false} OpeningAccounts()
    ensures Accounted(OPENING)
  {
    LineAdded([], 0);
    assert Whole(OPENING) == START;
    FlowTheorems.StartCredit();
  }

  lemma {:induction false} RunAccounts(run: seq<Wired>)
    requires IsRun(run)
    ensures Accounted(run[|run| - 1])
    decreases |run|
  {
    if |run| == 1 {
      OpeningAccounts();
    } else {
      var before, s, t := run[..|run| - 1], run[|run| - 2], run[|run| - 1];
      assert Next(s, t);
      assert IsRun(before);
      RunAccounts(before);
      NextAccounts(s, t);
    }
  }

  /** The accounting of the data in either direction, in every run. */
  lemma {:induction false} ReachedCredit(s: Wired, up: bool)
    requires Reached(s)
    ensures
      var t := Toward(s, up);
      Ok(t.a.st) && Ok(t.b.st) && Credit(Loaded(t.a), Loaded(t.b), t.ab)
  {
    var run :| IsRun(run) && run[|run| - 1] == s;
    RunAccounts(run);
  }

  /** Conservation of credit over the queues of all transports together, in every run
      and in both directions. */
  lemma {:induction false} CreditConserved(s: Wired, up: bool)
    requires Reached(s)
    ensures
      var t := Toward(s, up);
      && PendLen(t.a.pend) + Sum(Flatten(t.a.lines), DataLen) + t.b.st.readQueued +
           Sum(t.b.pool, ControlCredit) + Sum(Flatten(t.b.lines), FrameCredit) + t.ab.lost + t.ab.overAck ==
         t.a.st.inFlight + t.ab.forgiven + t.ab.preflow
      && t.a.st.inFlight <= Outstanding(Loaded(t.a), Loaded(t.b)) + t.ab.lost
  {
    ReachedCredit(s, up);
  }

  /** After r resets at most r + 1 windows (plus what preceded flow control) are
      outstanding on all transports together. */
  lemma {:induction false} WindowsBound(s: Wired, up: bool)
    requires Reached(s)
    ensures
      var t := Toward(s, up);
      var bytes := Outstanding(Loaded(t.a), Loaded(t.b));
      && bytes <= (t.ab.resets + 1) * Window(t.ab) + t.ab.preflow
      && (t.ab.preflow == 0 && t.ab.biggest <= FLOW_WINDOW ==> bytes <= (t.ab.resets + 1) * FLOW_WINDOW)
  {
    var t := Toward(s, up);
    ReachedCredit(s, up);
    CreditBound(Loaded(t.a), Loaded(t.b), t.ab);
  }

  /** With flow control on before the first data, writes of at most one window and at
      most three resets, no data frame on any transport can overflow the receive
      queue, whichever transport the receiver reads next. */
  lemma {:induction false} NeverOverflows(s: Wired, up: bool, k: nat, i: nat)
    requires Reached(s)
    requires
      var t := Toward(s, up);
      && t.ab.preflow == 0 && t.ab.biggest <= FLOW_WINDOW && t.ab.resets <= 3
      && k < |t.a.lines| && i < |t.a.lines[k]| && t.a.lines[k][i].Data?
    ensures
      var t := Toward(s, up);
      !ReceiveData(t.b.st, t.a.lines[k][i].payload).1.Overflow?
  {
    var t := Toward(s, up);
    ReachedCredit(s, up);
    FlattenWithout(t.a.lines, k, i);
    SumWithout(Flatten(t.a.lines), Place(t.a.lines, k, i), DataLen);
    CreditFits(Loaded(t.a), Loaded(t.b), t.ab, t.a.lines[k][i].payload);
  }

  /** Without resets and losses the sender's counter is what is outstanding on all
      transports, so no writer waits once everything is read and acknowledged. */
  lemma {:induction false} ExactUnlessReset(s: Wired, up: bool, length: nat)
    requires Reached(s)
    requires Toward(s, up).ab.preflow == 0 && Toward(s, up).ab.resets == 0 && Toward(s, up).ab.lost == 0
    ensures
      var t := Toward(s, up);
      var bytes := Outstanding(Loaded(t.a), Loaded(t.b));
      t.a.st.inFlight == bytes && (bytes == 0 ==> !MustWait(t.a.st, length))
  {
    var t := Toward(s, up);
    ReachedCredit(s, up);
    CreditExact(Loaded(t.a), Loaded(t.b), t.ab, length);
  }

  /** In every run and both directions, without resets and losses, an idle open writer
      begins a write exactly if nothing is outstanding on any transport, or the payload
      fits into the window of 262144 bytes beside what is, or flow control is off. */
  lemma {:induction false} WriteBeginsIff(s: Wired, up: bool, payload: Chunk)
    requires Reached(s)
    requires
      var t := Toward(s, up);
      && t.a.pend.Idle? && !t.a.st.writeClosed && !t.a.st.closed
      && t.ab.preflow == 0 && t.ab.resets == 0 && t.ab.lost == 0
    ensures
      var t := Toward(s, up);
      var bytes := Outstanding(Loaded(t.a), Loaded(t.b));
      CanStep(t, Local(BeginWrite(payload)), up) <==>
      bytes == 0 || bytes + |payload| <= 262144 || !t.a.st.flowEnabled
  {
    var t := Toward(s, up);
    ReachedCredit(s, up);
    CreditBegins(Loaded(t.a), Loaded(t.b), t.ab, |payload|);
  }
}
