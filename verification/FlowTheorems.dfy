/** Main results about the stream protocol, over every run of the two-endpoint
    system of FlowNet. */
module FlowTheorems {
  import opened Sequences
  import opened FlowStream
  import opened FlowNet
  import opened FlowContent

  /** One action by endpoint `a` (byA) or by endpoint `b`. */
  datatype Move = Move(byA: bool, act: Action)

  predicate CanMove(n: Net, m: Move) { Enabled(if m.byA then n else Swap(n), m.act) }

  /** `Ok` holds in every reachable state (ReachableInv), so it restricts no move. */
  function DoMove(n: Net, m: Move): (r: Net)
    requires Ok(n.a.st) && Ok(n.b.st) && CanMove(n, m)
  {
    if m.byA then Apply(n, m.act) else Swap(Apply(Swap(n), m.act))
  }

  ghost predicate Next(n: Net, n': Net)
  {
    Ok(n.a.st) && Ok(n.b.st) && exists m :: CanMove(n, m) && n' == DoMove(n, m)
  }

  /** A run of the system, state by state. */
  ghost predicate IsRun(run: seq<Net>)
  {
    && run != [] && run[0] == START
    && forall i | 0 < i < |run| :: Next(run[i - 1], run[i])
  }

  ghost predicate Reachable(n: Net)
  {
    exists run :: IsRun(run) && run[|run| - 1] == n
  }

  lemma {:induction false} StepKeepsInv(n: Net, act: Action)
    requires Inv(n) && Enabled(n, act)
    ensures Inv(Apply(n, act))
  {
    StepCredit(n, act);
    StepOrdered(n, act);
    StepEnded(n, act);
  }

  lemma {:induction false} NextKeepsInv(n: Net, n': Net)
    requires Inv(n) && Next(n, n')
    ensures Inv(n')
  {
    var m :| CanMove(n, m) && n' == DoMove(n, m);
    StepKeepsInv(if m.byA then n else Swap(n), m.act);
  }

  lemma {:induction false} StartCredit()
    ensures CreditBoth(START)
  {
    assert Sum([FlowOn], ControlCredit) == 0;
  }

  lemma {:induction false} StartOrdered()
    ensures Ordered(FRESH_NODE.out, FRESH, EMPTY_FLOW)
  {
    assert EMPTY_FLOW.accepted + DataOf(FRESH_NODE.out) == EMPTY_FLOW.written;
    PrefixIsSubseq(EMPTY_FLOW.written, EMPTY_FLOW.written);
  }

  lemma {:induction false} StartInv()
    ensures Inv(START)
  {
    StartCredit();
    StartOrdered();
    assert Ended(FRESH_NODE, FRESH_NODE, EMPTY_FLOW);
  }

  lemma {:induction false} RunInv(run: seq<Net>)
    requires IsRun(run)
    ensures Inv(run[|run| - 1])
    decreases |run|
  {
    if |run| == 1 {
      StartInv();
    } else {
      var before := run[..|run| - 1];
      assert IsRun(before);
      RunInv(before);
      NextKeepsInv(run[|run| - 2], run[|run| - 1]);
    }
  }

  /** The invariant holds in every reachable state of every run; stated in parts. */
  lemma {:induction false} ReachableInv(n: Net)
    requires Reachable(n)
    ensures Inv(n)
  {
    var run :| IsRun(run) && run[|run| - 1] == n;
    RunInv(run);
  }

  lemma {:induction false} ReachableCredit(n: Net)
    requires Reachable(n)
    ensures Ok(n.a.st) && Ok(n.b.st) && Credit(n.a, n.b, n.ab)
  {
    ReachableInv(n);
  }

  lemma {:induction false} ReachableOrder(n: Net)
    requires Reachable(n)
    ensures Ok(n.a.st) && Ok(n.b.st) && Ordered(n.a.out, n.b.st, n.ab) && Ended(n.a, n.b, n.ab)
  {
    ReachableInv(n);
  }

  /** The two directions are alike: the results below, stated for the data from `a`
      to `b`, hold for the data from `b` to `a` as well. */
  lemma {:induction false} ReachableBothWays(n: Net)
    requires Reachable(n)
    ensures Reachable(Swap(n))
  {
    var run :| IsRun(run) && run[|run| - 1] == n;
    var mirror := seq(|run|, i requires 0 <= i < |run| => Swap(run[i]));
    forall i | 0 < i < |mirror| ensures Next(mirror[i - 1], mirror[i]) {
      NextBothWays(run[i - 1], run[i]);
    }
    assert IsRun(mirror);
  }

  lemma {:induction false} NextBothWays(n: Net, n': Net)
    requires Next(n, n')
    ensures Next(Swap(n), Swap(n'))
  {
    var m :| CanMove(n, m) && n' == DoMove(n, m);
    var other := Move(!m.byA, m.act);
    assert CanMove(Swap(n), other) && Swap(n') == DoMove(Swap(n), other);
  }

  /** Conservation of credit: in every reachable state of every run, with late
      flow control, losses, failures and resets, the outstanding bytes are what
      the sender still counts, plus what resets forgave and what was written
      before flow control, less what was lost or over-acknowledged. */
  lemma {:induction false} CreditConservation(n: Net)
    requires Reachable(n)
    ensures Outstanding(n.a, n.b) + n.ab.lost + n.ab.overAck ==
            n.a.st.inFlight + n.ab.forgiven + n.ab.preflow
    ensures n.a.st.inFlight <= Outstanding(n.a, n.b) + n.ab.lost
  {
    ReachableCredit(n);
  }

  /** After r resets at most r + 1 windows (plus what preceded flow control) are
      outstanding. */
  lemma {:induction false} OutstandingBound(n: Net)
    requires Reachable(n)
    ensures Outstanding(n.a, n.b) <= (n.ab.resets + 1) * Window(n.ab) + n.ab.preflow
    ensures n.ab.preflow == 0 && n.ab.biggest <= FLOW_WINDOW ==>
              Outstanding(n.a, n.b) <= (n.ab.resets + 1) * FLOW_WINDOW
  {
    ReachableCredit(n);
    CreditBound(n.a, n.b, n.ab);
  }

  /** With flow control on before the first data, writes of at most one window and
      at most three resets, the receive queue never overflows. */
  lemma {:induction false} NoOverflowUpToThreeResets(n: Net, payload: Chunk)
    requires Reachable(n)
    requires n.ab.preflow == 0 && n.ab.biggest <= FLOW_WINDOW && n.ab.resets <= 3
    requires n.a.out != [] && n.a.out[0] == Data(payload)
    ensures !ReceiveData(n.b.st, payload).1.Overflow?
  {
    ReachableCredit(n);
    HeadOutstanding(n.a, n.b, payload);
    CreditFits(n.a, n.b, n.ab, payload);
  }

  lemma {:induction false} HeadOutstanding(x: Node, y: Node, payload: Chunk)
    requires x.out != [] && x.out[0] == Data(payload)
    ensures Outstanding(x, y) >= |payload| + y.st.readQueued
  {
    assert Sum(x.out, DataLen) == |payload| + Sum(x.out[1..], DataLen);
  }

  /** Without resets and losses the sender's counter is exact, so nothing waits
      once everything is read and acknowledged. */
  lemma {:induction false} ExactWithoutResets(n: Net, length: nat)
    requires Reachable(n)
    requires n.ab.preflow == 0 && n.ab.resets == 0 && n.ab.lost == 0
    ensures n.a.st.inFlight == Outstanding(n.a, n.b)
    ensures Outstanding(n.a, n.b) == 0 ==> !MustWait(n.a.st, length)
  {
    ReachableCredit(n);
    CreditExact(n.a, n.b, n.ab, length);
  }

  /** The writer neither waits too long nor starts too early: without resets and
      losses an idle open writer begins a write exactly if nothing is outstanding, or
      the payload fits into the window of 262144 bytes beside what is, or flow control
      is off. */
  lemma {:induction false} WriteBeginsIff(n: Net, payload: Chunk)
    requires Reachable(n) && n.a.pend.Idle? && !n.a.st.writeClosed && !n.a.st.closed
    requires n.ab.preflow == 0 && n.ab.resets == 0 && n.ab.lost == 0
    ensures Enabled(n, BeginWrite(payload)) <==>
              || Outstanding(n.a, n.b) == 0
              || Outstanding(n.a, n.b) + |payload| <= 262144
              || !n.a.st.flowEnabled
  {
    ReachableCredit(n);
    CreditBegins(n.a, n.b, n.ab, |payload|);
  }

  /** Received chunks are written chunks, in order, each used at most once, whatever
      is lost and however often the credit is reset; what the reader has is a prefix
      of them.  FlowReorder says when this carries over to changing transports. */
  lemma {:induction false} NoDuplicateNoReorder(n: Net)
    requires Reachable(n)
    ensures Subseq(n.ab.accepted, n.ab.written)
    ensures n.ab.delivered <= Flatten(n.ab.accepted)
  {
    ReachableOrder(n);
    var all := n.ab.accepted + DataOf(n.a.out);
    PrefixIsSubseq(n.ab.accepted, all);
    SubseqTrans(n.ab.accepted, all, n.ab.written);
  }

  /** While no frame has been dropped the bytes read are a prefix of the bytes
      written. */
  lemma {:induction false} ReadIsPrefixOfWritten(n: Net)
    requires Reachable(n) && n.ab.dropped == 0
    ensures n.ab.delivered <= Flatten(n.ab.written)
  {
    ReachableOrder(n);
    FlattenConcat(n.ab.accepted, DataOf(n.a.out));
    Assoc(n.ab.delivered, Unread(n.b.st), Flatten(DataOf(n.a.out)));
  }

  /** A reader that gets end-of-file, without having closed the stream itself, has
      read every byte, and the writer can add no more. */
  lemma {:induction false} EofMeansEverythingRead(n: Net, room: nat)
    requires Reachable(n) && n.ab.dropped == 0
    requires Ok(n.b.st) && ReadStep(n.b.st, room).1.EndOfFile? && !n.b.st.closed
    ensures n.ab.delivered == Flatten(n.ab.written)
    ensures n.a.st.writeClosed && !n.a.pend.SendingData?
  {
    ReachableOrder(n);
    DataOfNone(n.a.out);
    assert n.ab.accepted + [] == n.ab.accepted;
  }

  /** Whatever was queued before a failure is read before the failure shows. */
  lemma {:induction false} ErrorOnlyAfterQueuedBytes(n: Net, room: nat)
    requires Reachable(n) && Ok(n.b.st)
    requires ReadStep(n.b.st, room).1.ReadFailed? || ReadStep(n.b.st, room).1.EndOfFile?
    ensures n.ab.delivered == Flatten(n.ab.accepted)
  {
    ReachableOrder(n);
    ReadKeepsBytes(n.b.st, room);
  }

  // ------------------------------------------------------- the bound is tight

  lemma {:induction false} ReachStart()
    ensures Reachable(START)
  {
    assert IsRun([START]);
  }

  lemma {:induction false} ReachStep(n: Net, m: Move)
    requires Reachable(n) && Ok(n.a.st) && Ok(n.b.st) && CanMove(n, m)
    ensures Reachable(DoMove(n, m))
  {
    var run :| IsRun(run) && run[|run| - 1] == n;
    assert Next(n, DoMove(n, m));
    var longer := run + [DoMove(n, m)];
    assert forall i | 0 < i < |longer| :: Next(longer[i - 1], longer[i]);
    assert IsRun(longer);
  }

  const PAYLOAD: Chunk := seq(FLOW_WINDOW, _ => 0)

  /** k windows lie unread in the receiver's queue after k resets. */
  ghost predicate Stuffed(n: Net, k: nat)
  {
    && Reachable(n) && Ok(n.a.st) && Ok(n.b.st)
    && n.a.pend.Idle? && n.a.st.flowEnabled && n.a.st.inFlight == 0
    && !n.a.st.writeClosed && !n.a.st.closed && !n.b.st.closedRead && !n.b.st.closed
    && n.a.out == [] && n.b.out == []
    && n.b.st.readQueued == k * FLOW_WINDOW
    && n.ab.resets == k && n.ab.preflow == 0 && n.ab.biggest <= FLOW_WINDOW
  }

  lemma {:induction false} StuffFirst() returns (n: Net)
    ensures Stuffed(n, 0)
  {
    ReachStart();
    var sent := DoMove(START, Move(false, SendControl(0, 0)));
    ReachStep(START, Move(false, SendControl(0, 0)));
    ReachStep(sent, Move(true, Deliver));
    n := DoMove(sent, Move(true, Deliver));
  }

  /** One more window is written and put on the channel. */
  lemma {:induction false} Push(n: Net, k: nat) returns (m: Net)
    requires Stuffed(n, k)
    ensures Reachable(m) && Ok(m.a.st) && Ok(m.b.st) && m.a.out == [Data(PAYLOAD)]
    ensures m.b == n.b && m.a == n.a.(out := m.a.out, st := n.a.st.(inFlight := FLOW_WINDOW))
    ensures m.ab == n.ab.(written := n.ab.written + [PAYLOAD], biggest := FLOW_WINDOW)
  {
    ReachStep(n, Move(true, BeginWrite(PAYLOAD)));
    var w := DoMove(n, Move(true, BeginWrite(PAYLOAD)));
    ReachStep(w, Move(true, SendOk(0)));
    m := DoMove(w, Move(true, SendOk(0)));
  }

  lemma {:induction false} StuffMore(n: Net, k: nat) returns (r: Net)
    requires Stuffed(n, k) && k < 4
    ensures Stuffed(r, k + 1)
  {
    var m := Push(n, k);
    ReachStep(m, Move(false, Deliver));
    var d := DoMove(m, Move(false, Deliver));
    ReachableCredit(d);
    ReachStep(d, Move(true, Reconnect));
    r := DoMove(d, Move(true, Reconnect));
  }

  /** The three-reset bound cannot be raised: a run with four resets, every write
      one window and flow control on from the start overflows the queue. */
  lemma {:induction false} OverflowAfterFourResets() returns (n: Net)
    ensures Reachable(n)
    ensures n.ab.preflow == 0 && n.ab.biggest == FLOW_WINDOW && n.ab.resets == 4
    ensures n.a.out == [Data(PAYLOAD)] && ReceiveData(n.b.st, PAYLOAD).1.Overflow?
  {
    var s := StuffFirst();
    s := StuffMore(s, 0);
    s := StuffMore(s, 1);
    s := StuffMore(s, 2);
    s := StuffMore(s, 3);
    n := Push(s, 4);
  }
}
