/** The orders in which a listener can attach the transports of one client.  It runs at
    most two handshakes for a client, and a transport waiting to be attached holds
    one; so a transport can be followed by at most one that was dialled before it. */
module FlowSchedules {
  import opened Bytes
  import opened Sequences
  import opened PeerLinks
  import opened FlowStream
  import opened FlowNet
  import opened FlowTransports
  import opened FlowRefinement

  predicate Distinct(ks: seq<nat>)
  {
    forall i, j | 0 <= i < j < |ks| :: ks[i] != ks[j]
  }

  /** No transport is attached before two that were dialled earlier. */
  predicate OvertakesOne(ks: seq<nat>)
  {
    forall i, j, l | 0 <= i < j < l < |ks| :: ks[i] <= ks[j] || ks[i] <= ks[l]
  }

  predicate Admissible(ks: seq<nat>) { Distinct(ks) && OvertakesOne(ks) }

  // -------------------------------------------------- every run is admissible

  /** `x` is attached after the i-th transport of `ks`, or may still be, though it was
      dialled before. */
  predicate Overtaken(ks: seq<nat>, i: nat, shaking: set<nat>, x: nat)
    requires i < |ks|
  {
    x < ks[i] && (x in ks[i + 1..] || (x in shaking && x !in ks))
  }

  ghost predicate OneOvertaken(ks: seq<nat>, i: nat, shaking: set<nat>)
    requires i < |ks|
  {
    forall x, y | Overtaken(ks, i, shaking, x) && Overtaken(ks, i, shaking, y) :: x == y
  }

  ghost predicate Gated(s: Wired)
  {
    && |s.a.lines| == |s.b.lines| && |s.shaking| <= 2
    && (forall k | k in s.shaking || k in s.b.port.used :: k < |s.a.lines|)
    && (forall k | k in s.b.joined :: k in s.b.port.used)
    && Distinct(s.b.joined)
    && (forall i | 0 <= i < |s.b.joined| :: OneOvertaken(s.b.joined, i, s.shaking))
  }

  lemma {:induction false} OvertakenStill(ks: seq<nat>, i: nat, shaking: set<nat>, now: set<nat>)
    requires i < |ks| && OneOvertaken(ks, i, shaking) && (forall x | x in now :: x in shaking || x >= ks[i])
    ensures OneOvertaken(ks, i, now)
  {
    forall x, y | Overtaken(ks, i, now, x) && Overtaken(ks, i, now, y) ensures x == y {
      assert Overtaken(ks, i, shaking, x) && Overtaken(ks, i, shaking, y);
    }
  }

  /** A step that only changes what the gate does not see. */
  lemma {:induction false} GateSame(s: Wired, t: Wired)
    requires Gated(s) && t.shaking <= s.shaking && |t.shaking| <= 2 && t.b.joined == s.b.joined
    requires s.b.port.used <= t.b.port.used && (forall k | k in t.b.port.used :: k < |t.a.lines|)
    requires |t.a.lines| == |t.b.lines| == |s.a.lines|
    ensures Gated(t)
  {
    forall i | 0 <= i < |t.b.joined| ensures OneOvertaken(t.b.joined, i, t.shaking) {
      OvertakenStill(s.b.joined, i, s.shaking, t.shaking);
    }
  }

  lemma {:induction false} DialGated(s: Wired, t: Wired)
    requires Gated(s) && |s.shaking| < 2 && t.shaking == s.shaking + {|s.a.lines|}
    requires |t.a.lines| == |t.b.lines| == |s.a.lines| + 1 && t.b.joined == s.b.joined && t.b.port == s.b.port
    ensures Gated(t)
  {
    forall i | 0 <= i < |t.b.joined| ensures OneOvertaken(t.b.joined, i, t.shaking) {
      assert t.b.joined[i] in s.b.joined;
      OvertakenStill(s.b.joined, i, s.shaking, t.shaking);
    }
  }

  lemma ThreeOfTwo(shaking: set<nat>, x: nat, y: nat, k: nat)
    requires |shaking| <= 2 && x in shaking && y in shaking && k in shaking && x != k && y != k
    ensures x == y
  {
    var others := shaking - {k} - {x};
    assert |others| == |shaking| - 2;
    assert y in {x} + others;
  }

  lemma {:induction false} JoinOvertaken(ks: seq<nat>, k: nat, shaking: set<nat>, i: nat)
    requires k in shaking && k !in ks && |shaking| <= 2 && i <= |ks|
    requires i < |ks| ==> OneOvertaken(ks, i, shaking)
    ensures OneOvertaken(ks + [k], i, shaking)
  {
    var more := ks + [k];
    forall x, y | Overtaken(more, i, shaking, x) && Overtaken(more, i, shaking, y) ensures x == y {
      if i < |ks| {
        assert more[i + 1..] == ks[i + 1..] + [k];
        assert Overtaken(ks, i, shaking, x) && Overtaken(ks, i, shaking, y);
      } else {
        ThreeOfTwo(shaking, x, y, k);
      }
    }
  }

  lemma {:induction false} JoinGated(s: Wired, t: Wired, k: nat)
    requires Gated(s) && k in s.shaking && k !in s.b.port.used && t.b.joined == s.b.joined + [k]
    requires t.shaking == s.shaking && t.a == s.a && t.b.lines == s.b.lines
    requires s.b.port.used <= t.b.port.used && k in t.b.port.used && (forall x | x in t.b.port.used :: x < |t.a.lines|)
    ensures Gated(t)
  {
    forall i | 0 <= i < |t.b.joined| ensures OneOvertaken(t.b.joined, i, t.shaking) {
      JoinOvertaken(s.b.joined, k, s.shaking, i);
    }
  }

  /** Most actions leave ports, handshakes and the number of transports alone. */
  lemma {:induction false} StepSame(s: Wired, w: WireAction, client: bool)
    requires Ok(s.a.st) && CanStep(s, w, client) && !w.Shift? && !w.Dial? && !w.EndHandshake?
    ensures
      var t := Step(s, w, client);
      && t.shaking == s.shaking && t.a.joined == s.a.joined && t.b.joined == s.b.joined
      && t.a.port == s.a.port && t.b.port == s.b.port
      && |t.a.lines| == |s.a.lines| && |t.b.lines| == |s.b.lines|
  {
  }

  lemma {:induction false} NextGated(s: Wired, t: Wired)
    requires Gated(s) && Next(s, t)
    ensures Gated(t)
  {
    var m :| CanMove(s, m) && t == DoMove(s, m);
    match m.act {
      case Shift(port) =>
        if !m.client && Attaches(s.b.port, port) {
          JoinGated(s, t, port.source.value);
        } else {
          GateSame(s, t);
        }
      case Dial => DialGated(s, t);
      case EndHandshake(k) => GateSame(s, t);
      case _ =>
        StepSame(Toward(s, m.client), m.act, m.client);
        GateSame(s, t);
    }
  }

  lemma {:induction false} RunGated(run: seq<Wired>)
    requires IsRun(run)
    ensures Gated(run[|run| - 1])
    decreases |run|
  {
    if |run| > 1 {
      var before, s, t := run[..|run| - 1], run[|run| - 2], run[|run| - 1];
      assert Next(s, t);
      assert IsRun(before);
      RunGated(before);
      NextGated(s, t);
    }
  }

  lemma {:induction false} ReachedAdmissible(s: Wired)
    requires Reached(s)
    ensures Admissible(s.b.joined)
  {
    var run :| IsRun(run) && run[|run| - 1] == s;
    RunGated(run);
    var ks := s.b.joined;
    forall i, j, l | 0 <= i < j < l < |ks| ensures ks[i] <= ks[j] || ks[i] <= ks[l] {
      assert OneOvertaken(ks, i, s.shaking);
      var x, y := ks[j], ks[l];
      assert ks[i + 1..][j - i - 1] == x && ks[i + 1..][l - i - 1] == y;
      assert Overtaken(ks, i, s.shaking, x) && Overtaken(ks, i, s.shaking, y) ==> x == y;
    }
  }

  // --------------------------------------------- every admissible order occurs

  lemma {:induction false} ReachMove(s: Wired, m: WireMove)
    requires Reached(s) && CanMove(s, m)
    ensures Reached(DoMove(s, m))
  {
    var run :| IsRun(run) && run[|run| - 1] == s;
    RunExtends(run, DoMove(s, m));
  }

  lemma {:induction false} RunExtends(run: seq<Wired>, t: Wired)
    requires IsRun(run) && Next(run[|run| - 1], t)
    ensures Reached(t)
  {
    var longer := run + [t];
    forall i | 0 < i < |longer| ensures Next(longer[i - 1], longer[i]) {
      assert i < |run| ==> longer[i - 1] == run[i - 1] && longer[i] == run[i];
    }
    assert IsRun(longer);
  }

  const EARLY: Chunk := [0]
  const LATE: Chunk := [1]

  /** The client writes EARLY on transport `lo` and LATE on transport `hi`. */
  function Cargo(k: nat, lo: nat, hi: nat): (r: seq<Chunk>)
  {
    if k == lo then [EARLY] else if k == hi then [LATE] else []
  }

  function WrittenBy(dials: nat, lo: nat, hi: nat): (r: seq<Chunk>)
  {
    if dials > hi then [EARLY, LATE] else if dials > lo then [EARLY] else []
  }

  function Packed(chunks: seq<Chunk>): (r: seq<Frame>) { if chunks == [] then [] else [Data(chunks[0])] }

  /** What a listener hears that takes the cargo of every transport it attaches. */
  function Heard(ks: seq<nat>, lo: nat, hi: nat): (r: seq<Chunk>)
  {
    if ks == [] then [] else Heard(ks[..|ks| - 1], lo, hi) + Cargo(ks[|ks| - 1], lo, hi)
  }

  function One(b: bool): nat { if b then 1 else 0 }

  lemma {:induction false} HeardLength(ks: seq<nat>, lo: nat, hi: nat)
    requires Distinct(ks) && lo != hi
    ensures |Heard(ks, lo, hi)| == One(lo in ks) + One(hi in ks)
    decreases |ks|
  {
    if ks != [] {
      var init, last := ks[..|ks| - 1], ks[|ks| - 1];
      assert ks == init + [last] && last !in init;
      HeardLength(init, lo, hi);
    }
  }

  lemma {:induction false} HeardLate(ks: seq<nat>, lo: nat, hi: nat)
    requires Distinct(ks) && hi in ks && lo !in ks
    ensures Heard(ks, lo, hi) == [LATE]
    decreases |ks|
  {
    var init, last := ks[..|ks| - 1], ks[|ks| - 1];
    assert ks == init + [last] && last !in init;
    if last == hi { HeardLength(init, lo, hi); } else { HeardLate(init, lo, hi); }
  }

  lemma {:induction false} HeardSwapped(ks: seq<nat>, i: nat, j: nat)
    requires Distinct(ks) && i < j < |ks|
    ensures Heard(ks, ks[j], ks[i]) == [LATE, EARLY]
    decreases |ks|
  {
    var init := ks[..|ks| - 1];
    if j == |ks| - 1 {
      assert init[i] == ks[i];
      HeardLate(init, ks[j], ks[i]);
    } else {
      HeardSwapped(init, i, j);
    }
  }

  /** The client is on its latest transport and has received nothing. */
  predicate Resting(s: Wired)
  {
    var last := |s.a.lines| - 1;
    && last >= 0 && s.a.st == FRESH && s.a.pend.Idle? && s.a.via.None?
    && s.a.port.source == Some(last) && s.a.port.target == Some(last) && (forall k | k in s.a.port.used :: k <= last)
  }

  /** The listener, between transports, has heard `heard`. */
  predicate Hearing(s: Wired, heard: seq<Chunk>)
  {
    && Ok(s.b.st) && !s.b.st.closed && !s.b.st.closedRead && s.b.st.readQueued == |heard| && s.ab.accepted == heard
    && |s.a.lines| == |s.b.lines|
  }

  /** The transports of `rest`, as far as dialled, are in a handshake with their cargo
      waiting. */
  ghost predicate Waiting(s: Wired, rest: seq<nat>, lo: nat, hi: nat)
  {
    && (forall k :: k in s.shaking <==> k in rest && k < |s.a.lines|)
    && (forall k | k in rest && k < |s.a.lines| :: s.a.lines[k] == Packed(Cargo(k, lo, hi)))
  }

  /** The listener has attached and left the transports of `done`. */
  predicate Free(s: Wired, done: seq<nat>)
  {
    && s.b.joined == done && s.b.port.source.None? && s.b.port.target.None?
    && (forall k | k in s.b.port.used :: k in done) && (forall k | k in done :: k < |s.a.lines|)
  }

  ghost predicate Posed(s: Wired, done: seq<nat>, rest: seq<nat>, lo: nat, hi: nat)
  {
    && Resting(s) && Hearing(s, Heard(done, lo, hi)) && Waiting(s, rest, lo, hi) && Free(s, done)
    && s.ab.written == WrittenBy(|s.a.lines|, lo, hi)
  }

  ghost predicate Staged(s: Wired, done: seq<nat>, rest: seq<nat>, lo: nat, hi: nat)
  {
    Reached(s) && Posed(s, done, rest, lo, hi)
  }

  lemma {:induction false} WriteOn(s: Wired, p: Chunk) returns (t: Wired)
    requires Reached(s) && Resting(s) && Ok(s.b.st)
    ensures Reached(t) && Resting(t) && t.b == s.b && t.shaking == s.shaking
    ensures t.a.lines == s.a.lines[|s.a.lines| - 1 := s.a.lines[|s.a.lines| - 1] + [Data(p)]]
    ensures t.ab.written == s.ab.written + [p] && t.ab.accepted == s.ab.accepted
  {
    ReachMove(s, WireMove(true, Local(BeginWrite(p))));
    t := DoMove(s, WireMove(true, Local(BeginWrite(p))));
    ReachMove(t, WireMove(true, Pick));
    t := DoMove(t, WireMove(true, Pick));
    PutShape(t);
    var line := t.a.lines[|s.a.lines| - 1];
    assert Insert(line, |line|, Data(p)) == line + [Data(p)];
    ReachMove(t, WireMove(true, Put));
    t := DoMove(t, WireMove(true, Put));
  }

  lemma {:induction false} ClientSwitch(s: Wired, port: Port) returns (t: Wired)
    requires Reached(s) && Ok(s.a.st) && Ok(s.b.st) && CanStep(s, Shift(port), true)
    ensures Reached(t) && t == s.(a := s.a.(port := port, joined := t.a.joined))
  {
    ReachMove(s, WireMove(true, Shift(port)));
    t := DoMove(s, WireMove(true, Shift(port)));
  }

  lemma {:induction false} DialMove(s: Wired) returns (t: Wired)
    requires Reached(s) && Ok(s.a.st) && Ok(s.b.st) && CanStep(s, Dial, true)
    ensures Reached(t) && t == Step(s, Dial, true)
  {
    ReachMove(s, WireMove(true, Dial));
    t := DoMove(s, WireMove(true, Dial));
  }

  /** The client leaves its transport, dials and attaches the next one. */
  lemma {:induction false} Redial(s: Wired) returns (t: Wired)
    requires Reached(s) && Resting(s) && |s.a.lines| == |s.b.lines| && Ok(s.b.st) && |s.shaking| < 2
    ensures Reached(t) && Resting(t) && t.ab == s.ab && t.shaking == s.shaking + {|s.a.lines|}
    ensures t.a.lines == s.a.lines + [[]] && t.b == s.b.(lines := s.b.lines + [[]])
  {
    var used, d := s.a.port.used, |s.a.lines|;
    t := ClientSwitch(s, Port(None, None, used));
    t := DialMove(t);
    t := ClientSwitch(t, Port(Some(d), Some(d), used + {d}));
  }

  /** The client writes the cargo of its latest transport. */
  lemma {:induction false} WriteCargo(s: Wired, lo: nat, hi: nat) returns (t: Wired)
    requires lo < hi && Reached(s) && Resting(s) && Ok(s.b.st)
    requires s.a.lines[|s.a.lines| - 1] == [] && s.ab.written == WrittenBy(|s.a.lines| - 1, lo, hi)
    ensures Reached(t) && Resting(t) && t.b == s.b && t.shaking == s.shaking && t.ab.accepted == s.ab.accepted
    ensures t.a.lines == s.a.lines[|s.a.lines| - 1 := Packed(Cargo(|s.a.lines| - 1, lo, hi))]
    ensures t.ab.written == WrittenBy(|t.a.lines|, lo, hi)
  {
    var cargo := Cargo(|s.a.lines| - 1, lo, hi);
    t := s;
    if cargo != [] { t := WriteOn(s, cargo[0]); }
    assert [] + Packed(cargo) == Packed(cargo);
    assert cargo == [] ==> s.a.lines[|s.a.lines| - 1 := []] == s.a.lines;
  }

  /** A handshake of a transport that will not be attached is given up. */
  lemma {:induction false} GiveUp(s: Wired, rest: seq<nat>) returns (t: Wired)
    requires Reached(s) && Ok(s.a.st) && Ok(s.b.st)
    ensures Reached(t) && t == s.(shaking := t.shaking)
    ensures t.shaking == if |s.a.lines| - 1 in rest then s.shaking else s.shaking - {|s.a.lines| - 1}
  {
    t := s;
    if |s.a.lines| >= 1 && |s.a.lines| - 1 !in rest {
      ReachMove(s, WireMove(false, EndHandshake(|s.a.lines| - 1)));
      t := DoMove(s, WireMove(false, EndHandshake(|s.a.lines| - 1)));
    }
  }

  lemma {:induction false} WaitingDialled(s: Wired, t: Wired, rest: seq<nat>, lo: nat, hi: nat)
    requires Waiting(s, rest, lo, hi) && t.a.lines == s.a.lines + [Packed(Cargo(|s.a.lines|, lo, hi))]
    requires t.shaking == if |s.a.lines| in rest then s.shaking + {|s.a.lines|} else s.shaking
    ensures Waiting(t, rest, lo, hi)
  {
  }

  lemma LineFilled(lines: Lines, line: seq<Frame>)
    ensures (lines + [[]])[|lines| := line] == lines + [line]
  {
  }

  lemma {:induction false} DialOne(s: Wired, done: seq<nat>, rest: seq<nat>, lo: nat, hi: nat) returns (t: Wired)
    requires lo < hi && Staged(s, done, rest, lo, hi) && |s.shaking| < 2
    ensures Staged(t, done, rest, lo, hi) && |t.a.lines| == |s.a.lines| + 1
  {
    var d := |s.a.lines|;
    t := Redial(s);
    t := WriteCargo(t, lo, hi);
    LineFilled(s.a.lines, Packed(Cargo(d, lo, hi)));
    t := GiveUp(t, rest);
    PosedDialled(s, t, done, rest, lo, hi);
  }

  lemma {:induction false} PosedDialled(s: Wired, t: Wired, done: seq<nat>, rest: seq<nat>, lo: nat, hi: nat)
    requires Posed(s, done, rest, lo, hi) && Resting(t) && t.b == s.b.(lines := s.b.lines + [[]])
    requires t.a.lines == s.a.lines + [Packed(Cargo(|s.a.lines|, lo, hi))] && t.ab.accepted == s.ab.accepted
    requires t.shaking == if |s.a.lines| in rest then s.shaking + {|s.a.lines|}
        else s.shaking + {|s.a.lines|} - {|s.a.lines|}
    requires t.ab.written == WrittenBy(|t.a.lines|, lo, hi)
    ensures Posed(t, done, rest, lo, hi)
  {
    assert |s.a.lines| !in s.shaking && s.shaking + {|s.a.lines|} - {|s.a.lines|} == s.shaking;
    WaitingDialled(s, t, rest, lo, hi);
  }

  lemma {:induction false} AtMostOne(xs: set<nat>)
    requires forall x, y | x in xs && y in xs :: x == y
    ensures |xs| <= 1
  {
    if x :| x in xs {
      assert xs == {x};
    }
  }

  /** Before the next transport is dialled at most one other can be waiting. */
  lemma {:induction false} RoomToDial(s: Wired, rest: seq<nat>, lo: nat, hi: nat)
    requires Admissible(rest) && rest != [] && Waiting(s, rest, lo, hi) && |s.a.lines| <= rest[0]
    ensures |s.shaking| < 2
  {
    forall x, y | x in s.shaking && y in s.shaking ensures x == y {
      var j :| 0 <= j < |rest| && rest[j] == x;
      var l :| 0 <= l < |rest| && rest[l] == y;
      assert rest[j] < rest[0] && rest[l] < rest[0];
      assert j == l;
    }
    AtMostOne(s.shaking);
  }

  lemma {:induction false} DialUpTo(s: Wired, done: seq<nat>, rest: seq<nat>, lo: nat, hi: nat) returns (t: Wired)
    requires lo < hi && Staged(s, done, rest, lo, hi) && Admissible(rest) && rest != []
    ensures Staged(t, done, rest, lo, hi) && rest[0] < |t.a.lines|
    decreases rest[0] - |s.a.lines|
  {
    t := s;
    if |s.a.lines| <= rest[0] {
      RoomToDial(s, rest, lo, hi);
      t := DialOne(s, done, rest, lo, hi);
      t := DialUpTo(t, done, rest, lo, hi);
    }
  }

  lemma {:induction false} Switch(s: Wired, port: Port) returns (t: Wired)
    requires Reached(s) && Ok(s.a.st) && Ok(s.b.st) && CanStep(Flip(s), Shift(port), false)
    ensures Reached(t) && t == s.(b := s.b.(port := port, joined := t.b.joined))
    ensures t.b.joined == if Attaches(s.b.port, port) then s.b.joined + [port.source.value] else s.b.joined
  {
    ReachMove(s, WireMove(false, Shift(port)));
    t := DoMove(s, WireMove(false, Shift(port)));
  }

  /** The listener takes the cargo of the transport it reads. */
  lemma {:induction false} TakeCargo(s: Wired, k: nat, cargo: seq<Chunk>) returns (t: Wired)
    requires Reached(s) && Ok(s.a.st) && s.b.port.source == Some(k) && k < |s.a.lines| && s.a.lines[k] == Packed(cargo)
    requires Hearing(s, s.ab.accepted) && (cargo == [] || (|cargo| == 1 && |cargo[0]| == 1 && |s.ab.accepted| <= 1))
    ensures Reached(t) && t.a == s.a.(lines := s.a.lines[k := []]) && t.shaking == s.shaking
    ensures Hearing(t, s.ab.accepted + cargo) && t.ab.written == s.ab.written
    ensures t.b.port == s.b.port && t.b.joined == s.b.joined
  {
    t := s;
    if cargo == [] {
      assert s.a.lines[k := []] == s.a.lines && s.ab.accepted + cargo == s.ab.accepted;
    } else {
      ReceiveAppends(s.b.st, cargo[0]);
      TakeShape(Flip(s));
      ReachMove(s, WireMove(false, Take));
      t := DoMove(s, WireMove(false, Take));
      assert s.a.lines[k][1..] == [] && cargo == [cargo[0]];
      assert View(Flip(t), [], []) == Handled(View(Flip(s), [], []), Data(cargo[0]));
    }
  }

  lemma {:induction false} HeardNext(done: seq<nat>, k: nat, lo: nat, hi: nat)
    ensures Heard(done + [k], lo, hi) == Heard(done, lo, hi) + Cargo(k, lo, hi)
  {
    assert (done + [k])[..|done|] == done;
  }

  /** A transport with cargo is not the third to carry any. */
  lemma {:induction false} HeardRoom(done: seq<nat>, k: nat, lo: nat, hi: nat)
    requires Distinct(done) && k !in done && lo != hi
    ensures Cargo(k, lo, hi) != [] ==> |Heard(done, lo, hi)| <= 1
  {
    HeardLength(done, lo, hi);
  }

  lemma {:induction false} Apart(done: seq<nat>, k: nat, rest: seq<nat>)
    requires Distinct(done + [k] + rest)
    ensures Distinct(done) && k !in done && k !in rest
  {
    var all := done + [k] + rest;
    assert all[|done|] == k;
    assert forall i | 0 <= i < |done| :: all[i] == done[i];
    assert forall i | 0 <= i < |rest| :: all[|done| + 1 + i] == rest[i];
  }

  lemma {:induction false} WaitingTaken(s: Wired, t: Wired, k: nat, rest: seq<nat>, lo: nat, hi: nat)
    requires Waiting(s, [k] + rest, lo, hi) && k !in rest && k < |s.a.lines|
    requires t.a.lines == s.a.lines[k := []] && t.shaking == s.shaking - {k}
    ensures Waiting(t, rest, lo, hi)
  {
  }

  lemma {:induction false} MayAttach(s: Wired, done: seq<nat>, k: nat, rest: seq<nat>, lo: nat, hi: nat)
    requires Posed(s, done, [k] + rest, lo, hi) && k !in done && k < |s.a.lines|
    ensures
      var port := Port(Some(k), Some(k), s.b.port.used + {k});
      && CanStep(Flip(s), Shift(port), false) && Attaches(s.b.port, port)
      && s.a.lines[k] == Packed(Cargo(k, lo, hi)) && (forall x | x in port.used :: x < |s.b.lines|)
  {
    assert k in [k] + rest;
  }

  /** The next transport is attached and its cargo taken. */
  lemma {:induction false} AttachAndTake(s: Wired, done: seq<nat>, k: nat, rest: seq<nat>, lo: nat, hi: nat)
    returns (t: Wired)
    requires lo < hi && Distinct(done) && k !in done && k < |s.a.lines| && Staged(s, done, [k] + rest, lo, hi)
    ensures Reached(t) && t.a == s.a.(lines := s.a.lines[k := []]) && t.shaking == s.shaking
    ensures Hearing(t, Heard(done + [k], lo, hi)) && t.ab.written == s.ab.written
    ensures t.b.port == Port(Some(k), Some(k), s.b.port.used + {k}) && t.b.joined == done + [k]
    ensures forall x | x in t.b.port.used :: x < |t.b.lines|
  {
    MayAttach(s, done, k, rest, lo, hi);
    t := Switch(s, Port(Some(k), Some(k), s.b.port.used + {k}));
    HeardRoom(done, k, lo, hi);
    t := TakeCargo(t, k, Cargo(k, lo, hi));
    HeardNext(done, k, lo, hi);
  }

  /** The listener leaves its transport, whose handshake is over. */
  lemma {:induction false} Leave(s: Wired, k: nat) returns (t: Wired)
    requires Reached(s) && Ok(s.a.st) && Ok(s.b.st) && s.b.port.source == Some(k)
    requires forall x | x in s.b.port.used :: x < |s.b.lines|
    ensures Reached(t)
    ensures t == s.(b := s.b.(port := Port(None, None, s.b.port.used)), shaking := s.shaking - {k})
  {
    t := Switch(s, Port(None, None, s.b.port.used));
    ReachMove(t, WireMove(false, EndHandshake(k)));
    t := DoMove(t, WireMove(false, EndHandshake(k)));
  }

  lemma {:induction false} PosedAfter(s: Wired, t: Wired, done: seq<nat>, k: nat, rest: seq<nat>, lo: nat, hi: nat)
    requires Posed(s, done, [k] + rest, lo, hi) && k !in rest && k < |s.a.lines|
    requires t.a == s.a.(lines := s.a.lines[k := []]) && t.shaking == s.shaking - {k}
    requires Hearing(t, Heard(done + [k], lo, hi)) && t.ab.written == s.ab.written
    requires t.b.port == Port(None, None, s.b.port.used + {k}) && t.b.joined == done + [k]
    ensures Posed(t, done + [k], rest, lo, hi)
  {
    WaitingTaken(s, t, k, rest, lo, hi);
    FreeAgain(s, t, done, k);
  }

  lemma {:induction false} AttachOne(s: Wired, done: seq<nat>, k: nat, rest: seq<nat>, lo: nat, hi: nat)
    returns (t: Wired)
    requires lo < hi && Distinct(done + [k] + rest) && k < |s.a.lines| && Staged(s, done, [k] + rest, lo, hi)
    ensures Staged(t, done + [k], rest, lo, hi)
  {
    Apart(done, k, rest);
    var u := AttachAndTake(s, done, k, rest, lo, hi);
    t := Leave(u, k);
    PosedAfter(s, t, done, k, rest, lo, hi);
  }

  lemma FreeAgain(s: Wired, t: Wired, done: seq<nat>, k: nat)
    requires Free(s, done) && k < |s.a.lines| && |t.a.lines| == |s.a.lines|
    requires t.b.joined == done + [k] && t.b.port == Port(None, None, s.b.port.used + {k})
    ensures Free(t, done + [k])
  {
  }

  lemma {:induction false} AdmissibleTail(done: seq<nat>, rest: seq<nat>)
    requires Admissible(done + rest)
    ensures Admissible(rest)
  {
    assert forall i | 0 <= i < |rest| :: rest[i] == (done + rest)[|done| + i];
  }

  lemma {:induction false} AttachAll(s: Wired, done: seq<nat>, rest: seq<nat>, lo: nat, hi: nat) returns (t: Wired)
    requires lo < hi && Admissible(done + rest) && Staged(s, done, rest, lo, hi)
    ensures Staged(t, done + rest, [], lo, hi)
    decreases |rest|
  {
    if rest == [] {
      t := s;
      assert done + rest == done;
    } else {
      AdmissibleTail(done, rest);
      t := DialUpTo(s, done, rest, lo, hi);
      var k, more := rest[0], rest[1..];
      assert rest == [k] + more && done + rest == done + [k] + more;
      t := AttachOne(t, done, k, more, lo, hi);
      t := AttachAll(t, done + [k], more, lo, hi);
    }
  }

  lemma {:induction false} StageStart(ks: seq<nat>, lo: nat, hi: nat) returns (t: Wired)
    requires lo < hi
    ensures Staged(t, [], ks, lo, hi)
  {
    assert IsRun([OPENING]);
    t := WriteCargo(OPENING, lo, hi);
    t := GiveUp(t, ks);
  }

  /** Every admissible order is the order of some run, with any two transports
      carrying data. */
  lemma {:induction false} Schedule(ks: seq<nat>, lo: nat, hi: nat) returns (s: Wired)
    requires Admissible(ks) && lo < hi
    ensures Reached(s) && s.b.joined == ks && s.ab.accepted == Heard(ks, lo, hi)
    ensures hi in ks ==> s.ab.written == [EARLY, LATE]
  {
    s := StageStart(ks, lo, hi);
    assert [] + ks == ks;
    s := AttachAll(s, [], ks, lo, hi);
  }

  /** The listener can attach transports in exactly the admissible orders. */
  lemma {:induction false} AttachOrders(ks: seq<nat>)
    ensures (exists s :: Reached(s) && s.b.joined == ks) <==> Admissible(ks)
  {
    if Admissible(ks) {
      var s := Schedule(ks, 0, 1);
    }
    forall s | Reached(s) && s.b.joined == ks ensures Admissible(ks) {
      ReachedAdmissible(s);
    }
  }
}
