/** While every endpoint attaches its transports in the order they were dialled, the
    system of FlowTransports refines the one of FlowNet: the channel of an endpoint
    is what lies on the transports its peer has not passed, and the frames on
    passed transports are lost. */
module FlowRefinement {
  import opened Bytes
  import opened Sequences
  import opened PeerLinks
  import opened FlowStream
  import opened FlowNet
  import opened FlowTransports
  import FlowTheorems

  // --------------------------------------------------- flattening the lines

  lemma {:induction false} FlattenSplit(lines: Lines, k: nat)
    requires k <= |lines|
    ensures Flatten(lines) == Flatten(lines[..k]) + Flatten(lines[k..])
  {
    FlattenConcat(lines[..k], lines[k..]);
    assert lines == lines[..k] + lines[k..];
  }

  /** The place in the flattened lines of place `i` on line `k`. */
  function Place(lines: Lines, k: nat, i: nat): (r: nat)
    requires k < |lines| && i <= |lines[k]|
  {
    |Flatten(lines[..k])| + i
  }

  lemma {:induction false} FlattenAt(lines: Lines, k: nat, i: nat)
    requires k < |lines| && i <= |lines[k]|
    ensures Place(lines, k, i) <= |Flatten(lines)|
    ensures Flatten(lines)[..Place(lines, k, i)] == Flatten(lines[..k]) + lines[k][..i]
    ensures Flatten(lines)[Place(lines, k, i)..] == lines[k][i..] + Flatten(lines[k + 1..])
  {
    FlattenSplit(lines, k);
    assert lines[k..][1..] == lines[k + 1..];
    assert lines[k] == lines[k][..i] + lines[k][i..];
  }

  lemma {:induction false} FlattenInsert(lines: Lines, k: nat, i: nat, f: Frame)
    requires k < |lines| && i <= |lines[k]|
    ensures Place(lines, k, i) <= |Flatten(lines)|
    ensures Flatten(lines[k := Insert(lines[k], i, f)]) == Insert(Flatten(lines), Place(lines, k, i), f)
  {
    var lines' := lines[k := Insert(lines[k], i, f)];
    FlattenAt(lines, k, i);
    FlattenAt(lines', k, i);
    assert lines'[..k] == lines[..k] && lines'[k + 1..] == lines[k + 1..];
    assert lines'[k][..i] == lines[k][..i];
    assert lines'[k][i..] == [f] + lines[k][i..];
  }

  lemma {:induction false} FlattenWithout(lines: Lines, k: nat, i: nat)
    requires k < |lines| && i < |lines[k]|
    ensures
      var at := Place(lines, k, i);
      && at < |Flatten(lines)| && Flatten(lines)[at] == lines[k][i]
      && Flatten(lines[k := Without(lines[k], i)]) == Without(Flatten(lines), at)
  {
    var f, less := lines[k][i], lines[k := Without(lines[k], i)];
    FlattenInsert(less, k, i, f);
    assert Insert(less[k], i, f) == lines[k];
    assert less[k := lines[k]] == lines && less[..k] == lines[..k];
    assert Without(Insert(Flatten(less), Place(less, k, i), f), Place(less, k, i)) == Flatten(less);
  }

  /** A change of line `k` is a change ahead of `from` or behind it. */
  lemma {:induction false} UpdateSides(lines: Lines, from: nat, k: nat, line: seq<Frame>)
    requires from <= |lines| && k < |lines|
    ensures
      var lines' := lines[k := line];
      if k < from then lines'[from..] == lines[from..] && lines'[..from] == lines[..from][k := line]
      else lines'[..from] == lines[..from] && lines'[from..] == lines[from..][k - from := line]
  {
  }

  // -------------------------------------------------------------- refinement

  /** The latest transport the endpoint attached. */
  function Floor(h: Host): (r: nat) { if h.joined == [] then 0 else h.joined[|h.joined| - 1] }

  function IsData(f: Frame): nat { if f.Data? then 1 else 0 }

  /** The history with the frames `mine` of the sender and `theirs` of the receiver
      lost as well. */
  function Adjust(f: Flow, mine: seq<Frame>, theirs: seq<Frame>): (r: Flow)
  {
    f.(lost := f.lost + Sum(mine, DataLen) + Sum(theirs, FrameCredit), dropped := f.dropped + Sum(mine, IsData))
  }

  function Ahead(lines: Lines, from: nat): (r: seq<Frame>)
    requires from <= |lines|
  {
    Flatten(lines[from..])
  }

  function Behind(lines: Lines, from: nat): (r: seq<Frame>)
    requires from <= |lines|
  {
    Flatten(lines[..from])
  }

  /** `n` with the given channels and with more frames lost. */
  function Dress(n: Net, out: seq<Frame>, into: seq<Frame>, up: seq<Frame>, down: seq<Frame>): (r: Net)
  {
    Net(n.a.(out := out), n.b.(out := into), Adjust(n.ab, up, down), Adjust(n.ba, down, up))
  }

  function Abstract(s: Wired): (r: Net)
    requires Floor(s.b) <= |s.a.lines| && Floor(s.a) <= |s.b.lines|
  {
    Dress(View(s, [], []), Ahead(s.a.lines, Floor(s.b)), Ahead(s.b.lines, Floor(s.a)),
          Behind(s.a.lines, Floor(s.b)), Behind(s.b.lines, Floor(s.a)))
  }

  /** Data and end-of-file lie on no line beyond `k`. */
  predicate QuietBeyond(lines: Lines, k: nat)
  {
    forall j | k < j < |lines| :: Quiet(lines[j])
  }

  /** What an endpoint that attaches in order keeps. */
  predicate HostOk(h: Host)
  {
    && Floor(h) < |h.lines|
    && (h.port.source.Some? ==> h.port.source.value == Floor(h))
    && (h.port.target.Some? ==> h.port.target.value == Floor(h))
    && QuietBeyond(h.lines, Floor(h))
    && (h.via.Some? ==> h.via.value <= Floor(h) && QuietBeyond(h.lines, h.via.value))
  }

  predicate Aligned(s: Wired)
  {
    |s.a.lines| == |s.b.lines| && HostOk(s.a) && HostOk(s.b)
  }

  /** The action does not attach a transport dialled before the latest one attached. */
  predicate Forward(s: Wired, w: WireAction)
  {
    w.Shift? && Attaches(s.a.port, w.port) ==> Floor(s.a) <= w.port.source.value
  }

  lemma QuietUpdate(lines: Lines, k: nat, line: seq<Frame>, from: nat)
    requires k < |lines| && QuietBeyond(lines, from)
    requires k <= from || Quiet(line)
    ensures QuietBeyond(lines[k := line], from)
  {
  }

  lemma {:induction false} FlattenQuiet(lines: Lines)
    requires forall j | 0 <= j < |lines| :: Quiet(lines[j])
    ensures Quiet(Flatten(lines))
  {
    if lines != [] { FlattenQuiet(lines[1..]); }
  }

  /** A local action neither sees nor touches the channels and what was lost. */
  lemma {:induction false} LocalFrame(n: Net, act: Action, x: seq<Frame>, y: seq<Frame>, up: seq<Frame>,
      down: seq<Frame>)
    requires Ok(n.a.st) && IsLocal(act) && Enabled(n, act)
    ensures Enabled(Dress(n, x, y, up, down), act)
    ensures Apply(Dress(n, x, y, up, down), act) == Dress(Apply(n, act), x, y, up, down)
  {
    match act {
      case BeginWrite(_) =>
      case SendFail =>
      case BeginCloseWrite =>
      case ReadSome(_) =>
      case LoseControl(_) =>
      case Reconnect =>
      case StartFail(_) =>
      case FailReader =>
      case FailWriter =>
      case Say(_) =>
    }
  }

  lemma {:induction false} LocalLeaves(n: Net, act: Action)
    requires Ok(n.a.st) && IsLocal(act) && Enabled(n, act)
    ensures Apply(n, act).a.out == n.a.out && Apply(n, act).b == n.b
  {
  }

  lemma {:induction false} LocalRefines(s: Wired, act: Action)
    requires Aligned(s) && Ok(s.a.st) && CanStep(s, Local(act), false)
    ensures Enabled(Abstract(s), act)
    ensures
      var t := Update(s, Apply(View(s, [], []), act));
      Aligned(t) && Abstract(t) == Apply(Abstract(s), act)
  {
    var n := View(s, [], []);
    LocalFrame(n, act, Ahead(s.a.lines, Floor(s.b)), Ahead(s.b.lines, Floor(s.a)),
               Behind(s.a.lines, Floor(s.b)), Behind(s.b.lines, Floor(s.a)));
    LocalLeaves(n, act);
    var t := Update(s, Apply(n, act));
    assert View(t, [], []) == Apply(n, act);
  }

  /** The frames are lost in addition to those of `xs`. */
  predicate SumsAdd(xs: seq<Frame>, f: Frame, ys: seq<Frame>)
  {
    && Sum(ys, DataLen) == Sum(xs, DataLen) + DataLen(f)
    && Sum(ys, FrameCredit) == Sum(xs, FrameCredit) + FrameCredit(f)
    && Sum(ys, IsData) == Sum(xs, IsData) + IsData(f)
  }

  lemma {:induction false} InsertAdds(xs: seq<Frame>, at: nat, f: Frame)
    requires at <= |xs|
    ensures SumsAdd(xs, f, Insert(xs, at, f))
  {
    SumInsert(xs, at, f, DataLen);
    SumInsert(xs, at, f, FrameCredit);
    SumInsert(xs, at, f, IsData);
  }

  lemma {:induction false} LineInsert(lines: Lines, from: nat, k: nat, i: nat, f: Frame)
    requires from <= |lines| && k < |lines| && i <= |lines[k]|
    ensures
      var lines' := lines[k := Insert(lines[k], i, f)];
      if k < from then Ahead(lines', from) == Ahead(lines, from) &&
          SumsAdd(Behind(lines, from), f, Behind(lines', from))
      else
        var at := Place(lines[from..], k - from, i);
        && Behind(lines', from) == Behind(lines, from)
        && at <= |Ahead(lines, from)| && Ahead(lines', from) == Insert(Ahead(lines, from), at, f)
  {
    UpdateSides(lines, from, k, Insert(lines[k], i, f));
    if k < from {
      FlattenInsert(lines[..from], k, i, f);
      InsertAdds(Behind(lines, from), Place(lines[..from], k, i), f);
    } else {
      FlattenInsert(lines[from..], k - from, i, f);
    }
  }

  lemma {:induction false} LineWithout(lines: Lines, from: nat, k: nat, i: nat)
    requires from <= |lines| && k < |lines| && i < |lines[k]|
    ensures
      var lines' := lines[k := Without(lines[k], i)];
      if k < from then
        Ahead(lines', from) == Ahead(lines, from) && SumsAdd(Behind(lines', from), lines[k][i], Behind(lines, from))
      else
        var at := Place(lines[from..], k - from, i);
        && Behind(lines', from) == Behind(lines, from)
        && at < |Ahead(lines, from)| && Ahead(lines, from)[at] == lines[k][i]
        && Ahead(lines', from) == Without(Ahead(lines, from), at)
  {
    UpdateSides(lines, from, k, Without(lines[k], i));
    if k < from {
      FlattenWithout(lines[..from], k, i);
      var at := Place(lines[..from], k, i);
      InsertAdds(Without(Behind(lines, from), at), at, lines[k][i]);
      assert Insert(Without(Behind(lines, from), at), at, lines[k][i]) == Behind(lines, from);
    } else {
      FlattenWithout(lines[from..], k - from, i);
    }
  }

  lemma {:induction false} QuietAhead(lines: Lines, from: nat, k: nat)
    requires from <= k < |lines| && QuietBeyond(lines, k)
    ensures
      var at := Place(lines[from..], k - from, |lines[k]|);
      at <= |Ahead(lines, from)| && Quiet(Ahead(lines, from)[at..])
  {
    FlattenAt(lines[from..], k - from, |lines[k]|);
    assert lines[from..][k - from + 1..] == lines[k + 1..];
    FlattenQuiet(lines[k + 1..]);
    assert lines[k][|lines[k]|..] + Flatten(lines[k + 1..]) == Flatten(lines[k + 1..]);
  }

  lemma {:induction false} SendFrame(n: Net, at: nat, x: seq<Frame>, y: seq<Frame>, up: seq<Frame>, down: seq<Frame>)
    requires Ok(n.a.st) && Enabled(n, SendLost) && at <= |x| && Quiet(x[at..])
    ensures Enabled(Dress(n, x, y, up, down), SendOk(at))
    ensures Apply(Dress(n, x, y, up, down), SendOk(at)) ==
            Dress(Logged(n), Insert(x, at, PendingFrame(n.a.pend)), y, up, down)
  {
  }

  lemma {:induction false} SendLostFrame(n: Net, x: seq<Frame>, y: seq<Frame>, up: seq<Frame>, up': seq<Frame>,
      down: seq<Frame>)
    requires Ok(n.a.st) && Enabled(n, SendLost) && SumsAdd(up, PendingFrame(n.a.pend), up')
    ensures Enabled(Dress(n, x, y, up, down), SendLost)
    ensures Apply(Dress(n, x, y, up, down), SendLost) == Dress(Logged(n), x, y, up', down)
  {
  }

  lemma {:induction false} PutShape(s: Wired)
    requires Ok(s.a.st) && CanStep(s, Put, false)
    ensures
      var (t, k) := (DoPut(s), s.a.via.value);
      && View(t, [], []) == Logged(View(s, [], []))
      && t.b == s.b && t.a.port == s.a.port && t.a.joined == s.a.joined && t.a.via.None?
      && t.a.lines == s.a.lines[k := Insert(s.a.lines[k], |s.a.lines[k]|, PendingFrame(s.a.pend))]
  {
    var f, line := PendingFrame(s.a.pend), s.a.lines[s.a.via.value];
    assert Insert(line, |line|, f) == line + [f];
    assert Insert([], 0, f) == [f];
  }

  lemma {:induction false} PutAligned(s: Wired)
    requires Aligned(s) && Ok(s.a.st) && CanStep(s, Put, false)
    ensures Aligned(DoPut(s))
  {
    PutShape(s);
    QuietUpdate(s.a.lines, s.a.via.value, DoPut(s).a.lines[s.a.via.value], Floor(s.a));
  }

  lemma {:induction false} PutRefines(s: Wired) returns (act: Action)
    requires Aligned(s) && Ok(s.a.st) && CanStep(s, Put, false)
    ensures Enabled(Abstract(s), act)
    ensures Aligned(DoPut(s)) && Abstract(DoPut(s)) == Apply(Abstract(s), act)
  {
    var k, f, from := s.a.via.value, PendingFrame(s.a.pend), Floor(s.b);
    var t, i := DoPut(s), |s.a.lines[k]|;
    PutShape(s);
    PutAligned(s);
    LineInsert(s.a.lines, from, k, i, f);
    var x, y := Ahead(s.a.lines, from), Ahead(s.b.lines, Floor(s.a));
    var up, down := Behind(s.a.lines, from), Behind(s.b.lines, Floor(s.a));
    if k < from {
      act := SendLost;
      SendLostFrame(View(s, [], []), x, y, up, Behind(t.a.lines, from), down);
    } else {
      QuietAhead(s.a.lines, from, k);
      act := SendOk(Place(s.a.lines[from..], k - from, i));
      SendFrame(View(s, [], []), act.at, x, y, up, down);
    }
  }

  function Unpooled(n: Net, i: nat): (r: Net)
    requires i < |n.a.pool|
  {
    n.(a := n.a.(pool := Without(n.a.pool, i)))
  }

  lemma {:induction false} ControlFrame(n: Net, i: nat, at: nat, x: seq<Frame>, y: seq<Frame>, up: seq<Frame>,
      down: seq<Frame>)
    requires Ok(n.a.st) && i < |n.a.pool| && at <= |x|
    ensures Apply(Dress(n, x, y, up, down), SendControl(i, at)) ==
            Dress(Unpooled(n, i), Insert(x, at, Ctl(n.a.pool[i])), y, up, down)
  {
  }

  lemma {:induction false} ControlLostFrame(n: Net, i: nat, x: seq<Frame>, y: seq<Frame>, up: seq<Frame>,
      up': seq<Frame>, down: seq<Frame>)
    requires Ok(n.a.st) && i < |n.a.pool| && SumsAdd(up, Ctl(n.a.pool[i]), up')
    ensures Apply(Dress(n, x, y, up, down), LoseControl(i)) == Dress(Unpooled(n, i), x, y, up', down)
  {
  }

  lemma {:induction false} PutControlShape(s: Wired, i: nat, k: nat)
    requires Ok(s.a.st) && CanStep(s, PutControl(i, k), false)
    ensures
      var t := DoPutControl(s, i, k);
      && View(t, [], []) == Unpooled(View(s, [], []), i)
      && t.b == s.b && t.a.port == s.a.port && t.a.joined == s.a.joined && (t.a.via == s.a.via || t.a.via.None?)
      && t.a.lines == s.a.lines[k := Insert(s.a.lines[k], |s.a.lines[k]|, Ctl(s.a.pool[i]))]
  {
    var f, line := Ctl(s.a.pool[i]), s.a.lines[k];
    assert Insert(line, |line|, f) == line + [f];
    assert Insert([], 0, f) == [f];
  }

  lemma {:induction false} PutControlRefines(s: Wired, i: nat, k: nat) returns (act: Action)
    requires Aligned(s) && Ok(s.a.st) && CanStep(s, PutControl(i, k), false) && Eof !in s.a.pool
    ensures Enabled(Abstract(s), act)
    ensures Aligned(DoPutControl(s, i, k)) && Abstract(DoPutControl(s, i, k)) == Apply(Abstract(s), act)
  {
    var t, from, line := DoPutControl(s, i, k), Floor(s.b), s.a.lines[k];
    assert s.a.pool[i] in s.a.pool;
    PutControlShape(s, i, k);
    LineInsert(s.a.lines, from, k, |line|, Ctl(s.a.pool[i]));
    QuietUpdate(s.a.lines, k, t.a.lines[k], Floor(s.a));
    if s.a.via.Some? { QuietUpdate(s.a.lines, k, t.a.lines[k], s.a.via.value); }
    var x, y := Ahead(s.a.lines, from), Ahead(s.b.lines, Floor(s.a));
    var up, down := Behind(s.a.lines, from), Behind(s.b.lines, Floor(s.a));
    if k < from {
      act := LoseControl(i);
      ControlLostFrame(View(s, [], []), i, x, y, up, Behind(t.a.lines, from), down);
    } else {
      act := SendControl(i, Place(s.a.lines[from..], k - from, |line|));
      ControlFrame(View(s, [], []), i, act.at, x, y, up, down);
    }
  }

  lemma {:induction false} LoseFrameFrame(n: Net, at: nat, x: seq<Frame>, y: seq<Frame>, up: seq<Frame>,
      down: seq<Frame>)
    requires Ok(n.a.st) && at < |x|
    ensures Apply(Dress(n, x, y, up, down), LoseFrame(at)) == Dress(Lose(n, x[at]), Without(x, at), y, up, down)
  {
  }

  lemma {:induction false} LostTwice(n: Net, f: Frame, x: seq<Frame>, y: seq<Frame>, up: seq<Frame>, up': seq<Frame>,
      down: seq<Frame>)
    requires SumsAdd(up', f, up)
    ensures Dress(Lose(n, f), x, y, up', down) == Dress(n, x, y, up, down)
  {
  }

  lemma {:induction false} DropShape(s: Wired, k: nat, i: nat)
    requires Ok(s.a.st) && CanStep(s, Drop(k, i), false)
    ensures
      var t := DoDrop(s, k, i);
      && View(t, [], []) == Lose(View(s, [], []), s.a.lines[k][i])
      && t.b == s.b && t.a.port == s.a.port && t.a.joined == s.a.joined && (t.a.via == s.a.via || t.a.via.None?)
      && t.a.lines == s.a.lines[k := Without(s.a.lines[k], i)]
  {
  }

  lemma {:induction false} DropAligned(s: Wired, k: nat, i: nat)
    requires Aligned(s) && Ok(s.a.st) && CanStep(s, Drop(k, i), false)
    ensures Aligned(DoDrop(s, k, i))
  {
    DropShape(s, k, i);
    QuietLess(s.a.lines, k, i, Floor(s.a));
    if s.a.via.Some? { QuietLess(s.a.lines, k, i, s.a.via.value); }
  }

  lemma {:induction false} QuietLess(lines: Lines, k: nat, i: nat, from: nat)
    requires k < |lines| && i < |lines[k]| && QuietBeyond(lines, from)
    ensures QuietBeyond(lines[k := Without(lines[k], i)], from)
  {
    if k > from { assert Quiet(lines[k]); }
    QuietUpdate(lines, k, Without(lines[k], i), from);
  }

  /** A frame dropped on a passed transport was lost already. */
  lemma {:induction false} DropRefines(s: Wired, k: nat, i: nat) returns (act: Option<Action>)
    requires Aligned(s) && Ok(s.a.st) && CanStep(s, Drop(k, i), false)
    ensures act.Some? ==> Enabled(Abstract(s), act.value)
    ensures Aligned(DoDrop(s, k, i))
    ensures Abstract(DoDrop(s, k, i)) == if act.None? then Abstract(s) else Apply(Abstract(s), act.value)
  {
    var t, from, line := DoDrop(s, k, i), Floor(s.b), s.a.lines[k];
    DropShape(s, k, i);
    DropAligned(s, k, i);
    LineWithout(s.a.lines, from, k, i);
    var x, y := Ahead(s.a.lines, from), Ahead(s.b.lines, Floor(s.a));
    var up, down := Behind(s.a.lines, from), Behind(s.b.lines, Floor(s.a));
    if k < from {
      act := None;
      LostTwice(View(s, [], []), line[i], x, y, up, Behind(t.a.lines, from), down);
    } else {
      act := Some(LoseFrame(Place(s.a.lines[from..], k - from, i)));
      LoseFrameFrame(View(s, [], []), act.value.index, x, y, up, down);
    }
  }

  lemma {:induction false} DataFrame(n: Net, p: Chunk, x: seq<Frame>, y: seq<Frame>, up: seq<Frame>, down: seq<Frame>)
    ensures DoDeliverData(Dress(n, x, y, up, down), p) == Dress(DoDeliverData(n, p), x, y, up, down)
  {
  }

  lemma {:induction false} ReplyFrame(n: Net, c: Control, x: seq<Frame>, y: seq<Frame>, up: seq<Frame>,
      down: seq<Frame>)
    requires Ok(n.a.st)
    ensures DoDeliverControl(Dress(n, x, y, up, down), c) == Dress(DoDeliverControl(n, c), x, y, up, down)
  {
    match c {
      case Eof =>
      case FlowOn =>
      case Resume =>
      case Ack(_) =>
      case Ping =>
      case _ =>
    }
  }

  /** Handling a frame sees nothing of the channels and of what was lost. */
  lemma {:induction false} HandledFrame(n: Net, f: Frame, x: seq<Frame>, y: seq<Frame>, up: seq<Frame>,
      down: seq<Frame>)
    requires Ok(n.a.st)
    ensures Handled(Dress(n, x, y, up, down), f) == Dress(Handled(n, f), x, y, up, down)
  {
    match f {
      case Data(p) => DataFrame(n, p, x, y, up, down);
      case Ctl(c) => ReplyFrame(n, c, x, y, up, down);
      case Unexpected =>
    }
  }

  lemma {:induction false} HandledLeaves(n: Net, f: Frame)
    requires Ok(n.a.st)
    ensures Handled(n, f).a.out == n.a.out && Handled(n, f).b == n.b
  {
  }

  lemma {:induction false} TakeShape(s: Wired)
    requires Ok(s.a.st) && CanStep(s, Take, false)
    ensures
      var (t, k) := (DoTake(s), s.a.port.source.value);
      && View(t, [], []) == Handled(View(s, [], []), s.b.lines[k][0])
      && t.a.lines == s.a.lines && t.a.port == s.a.port && t.a.joined == s.a.joined
      && (t.a.via == s.a.via || t.a.via.None?)
      && t.b == s.b.(lines := s.b.lines[k := s.b.lines[k][1..]]) && t.shaking == s.shaking
  {
    var f := s.b.lines[s.a.port.source.value][0];
    assert [f][1..] == [];
    assert View(s, [], [f]).(b := Bare(s.b, [])) == View(s, [], []);
    HandledLeaves(View(s, [], []), f);
  }

  lemma {:induction false} TakeAligned(s: Wired)
    requires Aligned(s) && Ok(s.a.st) && CanStep(s, Take, false)
    ensures Aligned(DoTake(s))
  {
    var k := Floor(s.a);
    TakeShape(s);
    assert Without(s.b.lines[k], 0) == s.b.lines[k][1..];
    QuietLess(s.b.lines, k, 0, Floor(s.b));
    if s.b.via.Some? { QuietLess(s.b.lines, k, 0, s.b.via.value); }
  }

  lemma {:induction false} TakeRefines(s: Wired)
    requires Aligned(s) && Ok(s.a.st) && CanStep(s, Take, false)
    ensures Enabled(Abstract(s), Deliver)
    ensures Aligned(DoTake(s)) && Abstract(DoTake(s)) == Apply(Abstract(s), Deliver)
  {
    var k, f := Floor(s.a), s.b.lines[Floor(s.a)][0];
    TakeShape(s);
    TakeAligned(s);
    LineWithout(s.b.lines, k, k, 0);
    assert Without(s.b.lines[k], 0) == s.b.lines[k][1..] && s.b.lines[k..][..0] == [];
    var x, y := Ahead(s.a.lines, Floor(s.b)), Ahead(s.b.lines, k);
    assert Without(y, 0) == y[1..];
    HandledFrame(View(s, [], []), f, x, y[1..], Behind(s.a.lines, Floor(s.b)), Behind(s.b.lines, k));
  }

  /** The channel of `a` loses the frames of `front`. */
  function Shed(n: Net, front: seq<Frame>, rest: seq<Frame>): (r: Net)
  {
    n.(a := n.a.(out := rest), ab := Adjust(n.ab, front, []), ba := Adjust(n.ba, [], front))
  }

  lemma {:induction false} ShedReachable(n: Net, front: seq<Frame>, rest: seq<Frame>)
    requires FlowTheorems.Reachable(n) && n.a.out == front + rest
    ensures FlowTheorems.Reachable(Shed(n, front, rest))
    decreases |front|
  {
    if front == [] {
      assert front + rest == rest;
      assert Shed(n, front, rest) == n;
    } else {
      FlowTheorems.ReachableCredit(n);
      var m := FlowTheorems.Move(true, LoseFrame(0));
      FlowTheorems.ReachStep(n, m);
      var n' := FlowTheorems.DoMove(n, m);
      assert Without(n.a.out, 0) == front[1..] + rest;
      ShedReachable(n', front[1..], rest);
      assert Shed(n, front, rest) == Shed(n', front[1..], rest);
    }
  }

  lemma {:induction false} LinesPassed(lines: Lines, from: nat, to: nat)
    requires from <= to <= |lines|
    ensures
      var front := Flatten(lines[from..to]);
      && Ahead(lines, from) == front + Ahead(lines, to)
      && Behind(lines, to) == Behind(lines, from) + front
  {
    FlattenSplit(lines[from..], to - from);
    FlattenSplit(lines[..to], from);
    assert lines[from..][..to - from] == lines[from..to] && lines[from..][to - from..] == lines[to..];
    assert lines[..to][..from] == lines[..from] && lines[..to][from..] == lines[from..to];
  }

  /** Losing `front` on top of `up` is losing both. */
  lemma {:induction false} AdjustTwice(f: Flow, up: seq<Frame>, front: seq<Frame>, down: seq<Frame>)
    ensures Adjust(Adjust(f, up, down), front, []) == Adjust(f, up + front, down)
    ensures Adjust(Adjust(f, down, up), [], front) == Adjust(f, down, up + front)
  {
    SumConcat(up, front, DataLen);
    SumConcat(up, front, FrameCredit);
    SumConcat(up, front, IsData);
  }

  /** Attaching a later transport passes the lines before it. */
  lemma {:induction false} AttachRefines(s: Wired, port: Port)
    requires Refined(s) && Attaches(s.a.port, port) && Floor(s.a) <= port.source.value < |s.a.lines|
    ensures Refined(DoShift(s, port))
  {
    var t, from, k := DoShift(s, port), Floor(s.a), port.source.value;
    assert Floor(t.a) == k;
    var front, rest := Flatten(s.b.lines[from..k]), Ahead(s.b.lines, k);
    var n := Swap(Abstract(s));
    LinesPassed(s.b.lines, from, k);
    FlowTheorems.ReachableBothWays(Abstract(s));
    ShedReachable(n, front, rest);
    FlowTheorems.ReachableBothWays(Shed(n, front, rest));
    var up, down := Behind(s.a.lines, Floor(s.b)), Behind(s.b.lines, from);
    AdjustTwice(s.ba, down, front, up);
    AdjustTwice(s.ab, down, front, up);
    assert Abstract(t) == Swap(Shed(n, front, rest));
  }

  lemma {:induction false} DialRefines(s: Wired)
    requires Aligned(s)
    ensures
      var t := s.(a := s.a.(lines := s.a.lines + [[]]), b := s.b.(lines := s.b.lines + [[]]));
      Aligned(t) && Abstract(t) == Abstract(s)
  {
    LineAdded(s.a.lines, Floor(s.b));
    LineAdded(s.b.lines, Floor(s.a));
  }

  lemma {:induction false} LineAdded(lines: Lines, from: nat)
    requires from <= |lines|
    ensures Ahead(lines + [[]], from) == Ahead(lines, from) && Behind(lines + [[]], from) == Behind(lines, from)
  {
    assert (lines + [[]])[from..] == lines[from..] + [[]] && (lines + [[]])[..from] == lines[..from];
    FlattenSnoc(lines[from..], []);
  }

  ghost predicate Refined(s: Wired)
  {
    Aligned(s) && FlowTheorems.Reachable(Abstract(s))
  }

  /** One action of FlowNet's endpoint `a` keeps the abstract state reachable. */
  lemma {:induction false} Followed(n: Net, act: Action)
    requires FlowTheorems.Reachable(n) && Ok(n.a.st) && Enabled(n, act)
    ensures FlowTheorems.Reachable(Apply(n, act))
  {
    FlowTheorems.ReachableCredit(n);
    FlowTheorems.ReachStep(n, FlowTheorems.Move(true, act));
  }

  lemma {:induction false} LocalStays(s: Wired, act: Action)
    requires Refined(s) && Ok(s.a.st) && CanStep(s, Local(act), false)
    ensures Refined(Update(s, Apply(View(s, [], []), act)))
  {
    LocalRefines(s, act);
    Followed(Abstract(s), act);
  }

  lemma {:induction false} PutStays(s: Wired)
    requires Refined(s) && Ok(s.a.st) && CanStep(s, Put, false)
    ensures Refined(DoPut(s))
  {
    var act := PutRefines(s);
    Followed(Abstract(s), act);
  }

  lemma {:induction false} PutControlStays(s: Wired, i: nat, k: nat)
    requires Refined(s) && Ok(s.a.st) && CanStep(s, PutControl(i, k), false)
    ensures Refined(DoPutControl(s, i, k))
  {
    FlowTheorems.ReachableOrder(Abstract(s));
    var act := PutControlRefines(s, i, k);
    Followed(Abstract(s), act);
  }

  lemma {:induction false} TakeStays(s: Wired)
    requires Refined(s) && Ok(s.a.st) && CanStep(s, Take, false)
    ensures Refined(DoTake(s))
  {
    TakeRefines(s);
    Followed(Abstract(s), Deliver);
  }

  lemma {:induction false} DropStays(s: Wired, k: nat, i: nat)
    requires Refined(s) && Ok(s.a.st) && CanStep(s, Drop(k, i), false)
    ensures Refined(DoDrop(s, k, i))
  {
    var act := DropRefines(s, k, i);
    if act.Some? { Followed(Abstract(s), act.value); }
  }

  lemma {:induction false} ShiftStays(s: Wired, port: Port, client: bool)
    requires Refined(s) && CanStep(s, Shift(port), client) && Forward(s, Shift(port))
    ensures Refined(DoShift(s, port))
  {
    if Attaches(s.a.port, port) {
      AttachRefines(s, port);
    } else {
      assert Abstract(DoShift(s, port)) == Abstract(s);
    }
  }

  lemma {:induction false} StepRefines(s: Wired, w: WireAction, client: bool)
    requires Refined(s) && Ok(s.a.st) && CanStep(s, w, client) && Forward(s, w)
    ensures Refined(Step(s, w, client))
  {
    match w {
      case Local(act) => LocalStays(s, act);
      case Pick => assert Abstract(Step(s, w, client)) == Abstract(s);
      case Put => PutStays(s);
      case PutControl(i, k) => PutControlStays(s, i, k);
      case Take => TakeStays(s);
      case Drop(k, i) => DropStays(s, k, i);
      case Shift(port) => ShiftStays(s, port, client);
      case Dial =>
        DialRefines(s);
        assert Abstract(Step(s, w, client)) == Abstract(s);
      case EndHandshake(k) => assert Abstract(Step(s, w, client)) == Abstract(s);
    }
  }

  // -------------------------------------------------------------------- runs

  predicate Increasing(ks: seq<nat>)
  {
    forall i, j | 0 <= i < j < |ks| :: ks[i] < ks[j]
  }

  lemma {:induction false} FlipRefined(s: Wired)
    requires Refined(s)
    ensures Refined(Flip(s))
  {
    assert Abstract(Flip(s)) == Swap(Abstract(s));
    FlowTheorems.ReachableBothWays(Abstract(s));
  }

  lemma {:induction false} MoveRefines(s: Wired, m: WireMove)
    requires Refined(s) && FlowTransports.CanMove(s, m) && Increasing(FlowTransports.DoMove(s, m).b.joined)
    ensures Refined(FlowTransports.DoMove(s, m))
  {
    if m.client {
      StepRefines(s, m.act, true);
    } else {
      FlipRefined(s);
      if m.act.Shift? && Attaches(s.b.port, m.act.port) {
        var ks := FlowTransports.DoMove(s, m).b.joined;
        assert ks == s.b.joined + [m.act.port.source.value];
        assert s.b.joined != [] ==> ks[|ks| - 2] < ks[|ks| - 1];
      }
      StepRefines(Flip(s), m.act, false);
      FlipRefined(Step(Flip(s), m.act, false));
    }
  }

  lemma JoinedGrows(s: Wired, t: Wired)
    requires FlowTransports.Next(s, t)
    ensures s.b.joined <= t.b.joined
  {
  }

  lemma {:induction false} OpeningRefined()
    ensures Refined(OPENING)
  {
    FlowTheorems.ReachStart();
    LineAdded([], 0);
    assert Abstract(OPENING) == START;
  }

  lemma {:induction false} RunRefines(run: seq<Wired>)
    requires FlowTransports.IsRun(run) && Increasing(run[|run| - 1].b.joined)
    ensures Refined(run[|run| - 1])
    decreases |run|
  {
    if |run| == 1 {
      OpeningRefined();
    } else {
      var before, s, t := run[..|run| - 1], run[|run| - 2], run[|run| - 1];
      assert FlowTransports.Next(run[|run| - 2], run[|run| - 1]);
      JoinedGrows(s, t);
      assert FlowTransports.IsRun(before);
      RunRefines(before);
      var m :| FlowTransports.CanMove(s, m) && t == FlowTransports.DoMove(s, m);
      MoveRefines(s, m);
    }
  }

  /** Whatever the transports do, as long as the listener has attached them in the
      order they were dialled the state is a reachable state of FlowNet, with the
      same endpoints and the same data. */
  lemma {:induction false} InOrderRefines(s: Wired)
    requires Reached(s) && Increasing(s.b.joined)
    ensures Floor(s.b) < |s.a.lines| && Floor(s.a) < |s.b.lines|
    ensures FlowTheorems.Reachable(Abstract(s))
  {
    var run :| FlowTransports.IsRun(run) && run[|run| - 1] == s;
    RunRefines(run);
  }

  /** A reader that gets end-of-file, with no data frame dropped or left on a transport
      it has passed, has read everything its peer wrote, in either direction. */
  lemma {:induction false} InOrderEof(s: Wired, up: bool, room: nat)
    requires Reached(s) && Increasing(s.b.joined)
    requires
      var t := Toward(s, up);
      && Floor(t.b) <= |t.a.lines| && Sum(Behind(t.a.lines, Floor(t.b)), IsData) == 0 && t.ab.dropped == 0
      && Ok(t.b.st) && ReadStep(t.b.st, room).1.EndOfFile? && !t.b.st.closed
    ensures
      var t := Toward(s, up);
      t.ab.delivered == Flatten(t.ab.written) && t.a.st.writeClosed && !t.a.pend.SendingData?
  {
    InOrderRefines(s);
    FlowTheorems.ReachableBothWays(Abstract(s));
    FlowTheorems.EofMeansEverythingRead(if up then Abstract(s) else Swap(Abstract(s)), room);
  }
}
