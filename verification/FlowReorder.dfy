/** Order of the data across transports: exactly when it is kept. */
module FlowReorder {
  import opened Sequences
  import opened FlowStream
  import opened FlowNet
  import opened FlowContent
  import opened FlowTransports
  import opened FlowRefinement
  import opened FlowSchedules
  import FlowTheorems

  /** Any number of transports, losses, failures and late frames: while the listener
      attaches transports in the order they were dialled, the chunks received are
      written chunks, in order and each at most once, in both directions, and what
      was read is a prefix of them. */
  lemma {:induction false} InOrderNoReorder(s: Wired)
    requires Reached(s) && Increasing(s.b.joined)
    ensures Subseq(s.ab.accepted, s.ab.written) && s.ab.delivered <= Flatten(s.ab.accepted)
    ensures Subseq(s.ba.accepted, s.ba.written) && s.ba.delivered <= Flatten(s.ba.accepted)
  {
    InOrderRefines(s);
    FlowTheorems.NoDuplicateNoReorder(Abstract(s));
    FlowTheorems.ReachableBothWays(Abstract(s));
    FlowTheorems.NoDuplicateNoReorder(Swap(Abstract(s)));
  }

  // ------------------------------------------------- from listener to client

  /** The data on the client's latest transport follows what it has received. */
  ghost predicate DownOk(s: Wired)
  {
    && |s.a.lines| == |s.b.lines| > 0
    && (s.a.port.source.Some? ==> s.a.port.source.value == |s.b.lines| - 1)
    && Follows(s.b.lines[|s.b.lines| - 1], s.ba)
  }

  ghost predicate Follows(line: seq<Frame>, f: Flow) { Subseq(f.accepted + DataOf(line), f.written) }

  lemma {:induction false} FollowsWrite(line: seq<Frame>, f: Flow, p: Chunk)
    requires Follows(line, f)
    ensures Follows(line + [Data(p)], f.(written := f.written + [p])) && Follows(line, f.(written := f.written + [p]))
  {
    DataOfSnoc(line, Data(p));
    SubseqSnoc(f.accepted + DataOf(line), f.written, p);
    Assoc(f.accepted, DataOf(line), [p]);
  }

  lemma {:induction false} FollowsLess(line: seq<Frame>, i: nat, f: Flow)
    requires Follows(line, f) && i < |line|
    ensures Follows(Without(line, i), f)
  {
    FewerStillEmbed(f.accepted, line, i, f.written);
  }

  lemma {:induction false} FollowsTaken(line: seq<Frame>, f: Flow)
    requires Follows(line, f) && line != [] && line[0].Data?
    ensures Follows(line[1..], f.(accepted := f.accepted + [line[0].payload]))
  {
    assert DataOf(line) == [line[0].payload] + DataOf(line[1..]);
    Assoc(f.accepted, [line[0].payload], DataOf(line[1..]));
  }

  lemma {:induction false} FollowsNone(line: seq<Frame>, f: Flow)
    requires Follows(line, f)
    ensures Follows([], f)
  {
    PrefixIsSubseq(f.accepted, f.accepted + DataOf(line));
    SubseqTrans(f.accepted, f.accepted + DataOf(line), f.written);
    assert f.accepted + DataOf([]) == f.accepted;
  }

  /** Histories with the same chunks. */
  predicate SameData(f: Flow, g: Flow) { f.accepted == g.accepted && f.written == g.written }

  lemma {:induction false} LocalData(n: Net, act: Action)
    requires Ok(n.a.st) && IsLocal(act) && Enabled(n, act)
    ensures SameData(Apply(n, act).ab, n.ab) && SameData(Apply(n, act).ba, n.ba)
  {
  }

  lemma {:induction false} ClientDown(s: Wired, w: WireAction)
    requires DownOk(s) && Ok(s.a.st) && CanStep(s, w, true)
    ensures DownOk(Step(s, w, true))
  {
    var line := s.b.lines[|s.b.lines| - 1];
    match w {
      case Local(act) => LocalData(View(s, [], []), act);
      case Take => TakeDown(s);
      case Dial => FollowsNone(line, s.ba);
      case _ =>
    }
  }

  lemma {:induction false} TakeDown(s: Wired)
    requires DownOk(s) && Ok(s.a.st) && CanStep(s, Take, true)
    ensures DownOk(DoTake(s))
  {
    var line := s.b.lines[|s.b.lines| - 1];
    TakeShape(s);
    HandledData(View(s, [], []), line[0]);
    FollowsLess(line, 0, s.ba);
    assert Without(line, 0) == line[1..];
    if line[0].Data? { FollowsTaken(line, s.ba); }
  }

  /** Handling a frame accepts its data or leaves the data history alone. */
  lemma {:induction false} HandledData(n: Net, f: Frame)
    requires Ok(n.a.st)
    ensures
      var (g, h) := (n.ba, Handled(n, f).ba);
      SameData(h, g) || (f.Data? && SameData(h, g.(accepted := g.accepted + [f.payload])))
  {
    match f {
      case Data(p) =>
      case Ctl(c) => match c { case Ack(_) => case _ => }
      case Unexpected =>
    }
  }

  lemma {:induction false} PutDown(s: Wired)
    requires DownOk(Flip(s)) && Ok(s.a.st) && CanStep(s, Put, false)
    ensures DownOk(Flip(DoPut(s)))
  {
    var line, f := s.a.lines[|s.a.lines| - 1], PendingFrame(s.a.pend);
    PutShape(s);
    DataOfInsert(line, |line|, f);
    if s.a.pend.SendingData? { FollowsWrite(line, s.ab, s.a.pend.payload); }
  }

  lemma {:induction false} PutControlDown(s: Wired, i: nat, k: nat)
    requires DownOk(Flip(s)) && Ok(s.a.st) && CanStep(s, PutControl(i, k), false)
    ensures DownOk(Flip(DoPutControl(s, i, k)))
  {
    var line := s.a.lines[|s.a.lines| - 1];
    PutControlShape(s, i, k);
    DataOfInsert(line, |line|, Ctl(s.a.pool[i]));
  }

  lemma {:induction false} DropDown(s: Wired, k: nat, i: nat)
    requires DownOk(Flip(s)) && Ok(s.a.st) && CanStep(s, Drop(k, i), false)
    ensures DownOk(Flip(DoDrop(s, k, i)))
  {
    var last := |s.a.lines| - 1;
    DropShape(s, k, i);
    if k == last { FollowsLess(s.a.lines[last], i, s.ab); }
  }

  lemma {:induction false} ListenerDown(s: Wired, w: WireAction)
    requires DownOk(Flip(s)) && Ok(s.a.st) && CanStep(s, w, false)
    ensures DownOk(Flip(Step(s, w, false)))
  {
    match w {
      case Local(act) => LocalData(View(s, [], []), act);
      case Put => PutDown(s);
      case PutControl(i, k) => PutControlDown(s, i, k);
      case Drop(k, i) => DropDown(s, k, i);
      case _ =>
    }
  }

  lemma {:induction false} NextDown(s: Wired, t: Wired)
    requires DownOk(s) && Next(s, t)
    ensures DownOk(t)
  {
    var m :| CanMove(s, m) && t == DoMove(s, m);
    if m.client { ClientDown(s, m.act); } else { ListenerDown(Flip(s), m.act); }
  }

  lemma {:induction false} RunDown(run: seq<Wired>)
    requires IsRun(run)
    ensures DownOk(run[|run| - 1])
    decreases |run|
  {
    var t := run[|run| - 1];
    if |run| == 1 {
      PrefixIsSubseq<Chunk>([], []);
      assert EMPTY_FLOW.accepted + DataOf([]) == [];
    } else {
      var before, s := run[..|run| - 1], run[|run| - 2];
      assert Next(s, t);
      assert IsRun(before);
      RunDown(before);
      NextDown(s, t);
    }
  }

  /** The client never gets data out of order or twice, whatever the order in which
      the listener attaches. */
  lemma {:induction false} ClientNeverReorders(s: Wired)
    requires Reached(s)
    ensures Subseq(s.ba.accepted, s.ba.written)
  {
    var run :| IsRun(run) && run[|run| - 1] == s;
    RunDown(run);
    FollowsNone(s.b.lines[|s.b.lines| - 1], s.ba);
    assert s.ba.accepted + DataOf([]) == s.ba.accepted;
  }

  // ------------------------------------------------- from client to listener

  /** A listener that attaches the transports `ks` in this order receives in order,
      in every run. */
  ghost predicate KeepsOrder(ks: seq<nat>)
  {
    forall s | Reached(s) && s.b.joined == ks :: Subseq(s.ab.accepted, s.ab.written)
  }

  /** A listener that attaches a transport after a later one can receive an earlier
      chunk after a later one. */
  lemma {:induction false} LateAttachReorders(ks: seq<nat>, i: nat, j: nat) returns (s: Wired)
    requires Admissible(ks) && i < j < |ks| && ks[i] > ks[j]
    ensures Reached(s) && s.b.joined == ks && s.ab.written == [EARLY, LATE] && s.ab.accepted == [LATE, EARLY]
  {
    s := Schedule(ks, ks[j], ks[i]);
    HeardSwapped(ks, i, j);
  }

  lemma {:induction false} NotSubseq()
    ensures !Subseq([LATE, EARLY], [EARLY, LATE])
  {
    forall at: seq<nat> ensures !Places(at, [LATE, EARLY], [EARLY, LATE]) {
      assert |at| == 2 && at[0] < at[1] < 2 ==> [EARLY, LATE][at[0]] != LATE;
    }
  }

  /** The listener receives in order in every run exactly when it attaches the
      transports in the order they were dialled, or in an order that the handshake
      limit rules out altogether.  Nothing in the activation code compares them: an
      authenticated transport may wait for the listener's lock while a later one
      comes and goes. */
  lemma {:induction false} OrderKeptIff(ks: seq<nat>)
    ensures KeepsOrder(ks) <==> Increasing(ks) || !Admissible(ks)
  {
    if Increasing(ks) {
      forall s | Reached(s) && s.b.joined == ks ensures Subseq(s.ab.accepted, s.ab.written) {
        InOrderNoReorder(s);
      }
    } else if Admissible(ks) {
      var i, j :| 0 <= i < j < |ks| && ks[i] >= ks[j];
      var s := LateAttachReorders(ks, i, j);
      NotSubseq();
    } else {
      AttachOrders(ks);
    }
  }
}
